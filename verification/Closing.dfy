/**
 The closing handshake over whole sessions (`src/adapters/ws/protocol/mod.rs`), section 5.5.1 of RFC 6455.
 */
module Closing {
  import opened Base
  import opened Coding
  import opened Frames
  import opened Streams
  import opened Codecs
  import opened Messages
  import opened Contexts
  import opened Sessions

  const CLOSE := Control(ControlOp.Close)
  const PONG := Control(ControlOp.Pong)
  const PING := Control(ControlOp.Ping)

  predicate NoClose(sent: seq<Frame>) {
    forall f | f in sent :: !f.Is(CLOSE)
  }

  predicate CloseLast(sent: seq<Frame>) {
    sent != [] && sent[|sent| - 1].Is(CLOSE) && NoClose(sent[..|sent| - 1])
  }

  predicate PongAfterClose(sent: seq<Frame>) {
    sent != [] && sent[|sent| - 1].Is(PONG) && CloseLast(sent[..|sent| - 1])
  }

  predicate PendingIs(ctx: Context, op: OpCode) {
    ctx.additional.Some? && ctx.additional.value.Is(op)
  }

  /** What every call keeps. */
  predicate Disciplined(ctx: Context) {
    var sent := ctx.codec.sent;
    && (ctx.additional.Some? ==> PendingIs(ctx, PONG) || PendingIs(ctx, CLOSE))
    && (ctx.state.Active? ==> NoClose(sent) && !PendingIs(ctx, CLOSE))
    && (|| NoClose(sent)
        || (CloseLast(sent) && !PendingIs(ctx, CLOSE))
        || (PongAfterClose(sent) && ctx.additional.None?))
  }

  /** A buffered frame is appended with its operation code; a refused one comes back with it. */
  lemma BufferAppends(ctx: Context, s: Stream, f: Frame)
    ensures var r := Buffer(ctx, s, f);
            if r.result.Err? && r.result.error.WriteBufferFull?
            then r.ctx == ctx && r.result.error.frame.header.opcode == f.header.opcode
                 && r.result.error.frame.payload == f.payload
            else exists f' :: r.ctx.codec.sent == ctx.codec.sent + [f']
                    && f'.header.opcode == f.header.opcode && f'.payload == f.payload
  {
    hide FormatFrame, WriteOut;
    var (f', s') := Prepared(ctx.role, s, f);
    var b := BufferFrame(ctx.codec, s', f');
  }

  lemma SendAdditionalDisciplined(ctx: Context, s: Stream)
    requires Disciplined(ctx)
    ensures Disciplined(SendAdditional(ctx, s).ctx)
  {
    hide Buffer;
    if ctx.additional.Some? {
      var f, cleared := ctx.additional.value, ctx.(additional := None);
      BufferAppends(cleared, s, f);
      var r := Buffer(cleared, s, f);
      if !(r.result.Err? && r.result.error.WriteBufferFull?) {
        var sent, sent' := ctx.codec.sent, r.ctx.codec.sent;
        assert sent'[..|sent'| - 1] == sent;
        assert sent'[|sent'| - 1].header.opcode == f.header.opcode;
      }
    }
  }

  lemma BufferDisciplined(ctx: Context, s: Stream, f: Frame)
    requires Disciplined(ctx)
    requires if f.Is(CLOSE) then ctx.state.ClosedByUs? && NoClose(ctx.codec.sent) && !PendingIs(ctx, CLOSE)
             else ctx.state.Active?
    ensures Disciplined(Buffer(ctx, s, f).ctx)
  {
    hide Buffer;
    BufferAppends(ctx, s, f);
    var r := Buffer(ctx, s, f);
    if !(r.result.Err? && r.result.error.WriteBufferFull?) {
      var sent, sent' := ctx.codec.sent, r.ctx.codec.sent;
      assert sent'[..|sent'| - 1] == sent;
    }
  }

  lemma WriteInnerDisciplined(ctx: Context, s: Stream, data: Option<Frame>)
    requires Disciplined(ctx)
    requires data.Some? ==>
               if data.value.Is(CLOSE) then ctx.state.ClosedByUs? && NoClose(ctx.codec.sent) && !PendingIs(ctx, CLOSE)
               else ctx.state.Active?
    ensures Disciplined(WriteInner(ctx, s, data).ctx)
  {
    hide Buffer, SendAdditional, WriteOutBuffer, NoClose, CloseLast, PongAfterClose;
    if data.Some? {
      BufferDisciplined(ctx, s, data.value);
    }
    var b := if data.Some? then Buffer(ctx, s, data.value) else Step(ctx, s, Ok(()));
    SendAdditionalDisciplined(b.ctx, b.stream);
  }

  lemma FlushDisciplined(ctx: Context, s: Stream)
    requires Disciplined(ctx)
    ensures Disciplined(Flush(ctx, s).ctx)
  {
    hide WriteInner, WriteOutBuffer, NoClose, CloseLast, PongAfterClose;
    WriteInnerDisciplined(ctx, s, None);
  }

  lemma ShutDisciplined(ctx: Context, s: Stream, reason: Option<CloseReason>)
    requires Disciplined(ctx)
    ensures Disciplined(Shut(ctx, s, reason).ctx)
  {
    hide WriteInner, Flush, NoClose, CloseLast, PongAfterClose;
    if ctx.state.Active? {
      var ctx' := ctx.(state := ClosedByUs);
      WriteInnerDisciplined(ctx', s, CloseFrame(reason));
      var w := WriteInner(ctx', s, CloseFrame(reason));
      FlushDisciplined(w.ctx, w.stream);
    } else {
      FlushDisciplined(ctx, s);
    }
  }

  lemma WriteFrameDisciplined(ctx: Context, s: Stream, f: Frame)
    requires Disciplined(ctx) && ctx.state.Active? && !f.Is(CLOSE)
    ensures Disciplined(WriteFrame(ctx, s, f).ctx)
  {
    hide WriteInner, Flush, Disciplined;
    WriteInnerDisciplined(ctx, s, Some(f));
    var w := WriteInner(ctx, s, Some(f));
    FlushDisciplined(w.ctx, w.stream);
  }

  lemma WriteDisciplined(ctx: Context, s: Stream, message: Message)
    requires Disciplined(ctx) && !message.Raw?
    ensures Disciplined(Write(ctx, s, message).ctx)
  {
    hide WriteFrame, WriteInner, Shut, NoClose, CloseLast, PongAfterClose;
    if ctx.state.Active? {
      match message
      case Text(data) => WriteFrameDisciplined(ctx, s, MessageFrame(data, DataOp.Text, true));
      case Binary(data) => WriteFrameDisciplined(ctx, s, MessageFrame(data, DataOp.Binary, true));
      case Ping(data) => WriteFrameDisciplined(ctx, s, PingFrame(data));
      case Pong(data) => WriteInnerDisciplined(SetAdditional(ctx, PongFrame(data)), s, None);
      case Close(reason) => ShutDisciplined(ctx, s, reason);
    }
  }

  lemma HandleFrameDisciplined(ctx: Context, f: Frame)
    requires Disciplined(ctx)
    ensures Disciplined(HandleFrame(ctx, f).ctx)
  {
    hide NoClose, CloseLast, PongAfterClose, HandleData, ReadClose;
    HandleDataKeeps(ctx, ApplyMask(f));
    HandleDataKeeps(ctx, f);
  }

  lemma HandleDataKeeps(ctx: Context, f: Frame)
    ensures f.header.opcode.Data? ==> HandleData(ctx, f).ctx == ctx.(incomplete := HandleData(ctx, f).ctx.incomplete)
  {
    hide ExtendMessage;
  }

  lemma {:induction false} ReadLoopDisciplined(ctx: Context, s: Stream)
    requires Disciplined(ctx)
    ensures Disciplined(ReadLoop(ctx, s).ctx)
    decreases Unread(ctx.codec, s)
  {
    hide Flush, ReadFrame, HandleFrame, NoClose, CloseLast, PongAfterClose;
    FlushDisciplined(ctx, s);
    var b := BeforeRead(ctx, s);
    if b.result.Ok? {
      var raw := ReadFrame(b.ctx.codec, b.stream, b.ctx.config.FrameLimit());
      if raw.result.Ok? && raw.result.value.Some? {
        HandleFrameDisciplined(b.ctx.(codec := raw.codec), raw.result.value.value);
      }
      var r := ReadMessageFrame(b.ctx, b.stream);
      ReadProgress(ctx, s);
      if r.result == Ok(None) {
        ReadLoopDisciplined(r.ctx, r.stream);
      }
    }
  }

  predicate NoRawFrames(calls: seq<Call>) {
    forall c | c in calls :: !(c.WriteCall? && c.message.Raw?)
  }

  lemma {:induction false} SessionDisciplined(ctx: Context, s: Stream, calls: seq<Call>)
    requires Disciplined(ctx) && NoRawFrames(calls)
    ensures Disciplined(Play(ctx, s, calls).ctx)
    decreases calls
  {
    hide ReadLoop, Write, Flush, Shut, Disciplined;
    if calls != [] {
      match calls[0] {
        case ReadCall => ReadLoopDisciplined(ctx, s);
        case WriteCall(m) => assert calls[0] in calls; WriteDisciplined(ctx, s, m);
        case FlushCall => FlushDisciplined(ctx, s);
        case CloseCall(reason) => ShutDisciplined(ctx, s, reason);
      }
      var first := Perform(ctx, s, calls[0]);
      SessionDisciplined(first.ctx, first.stream, calls[1..]);
    }
  }

  /**
   In every session without raw frames: whatever frame follows an accepted Close is a Pong and the very
   last frame.  So there is at most one Close, no data or Ping after it, and at most one frame after it.
   */
  lemma NothingAfterClose(role: Role, part: Bytes, config: Config, s: Stream, calls: seq<Call>)
    requires NoRawFrames(calls)
    ensures var sent := Play(NewContext(role, part, config), s, calls).ctx.codec.sent;
            forall i, j | 0 <= i < j < |sent| && sent[i].Is(CLOSE) ::
              j == i + 1 == |sent| - 1 && sent[j].Is(PONG)
  {
    hide Play;
    var ctx := NewContext(role, part, config);
    SessionDisciplined(ctx, s, calls);
    ShapeOfSent(Play(ctx, s, calls).ctx);
  }

  lemma ShapeOfSent(ctx: Context)
    requires Disciplined(ctx)
    ensures var sent := ctx.codec.sent;
            forall i, j | 0 <= i < j < |sent| && sent[i].Is(CLOSE) ::
              j == i + 1 == |sent| - 1 && sent[j].Is(PONG)
  {
  }

  // ---------------------------------------------------------------- replies that are owed

  /** A reply, by operation and payload, and how many frames had been accepted when it became due. */
  datatype Reply = Reply(op: OpCode, payload: Bytes, due: nat) {
    predicate Is(f: Frame) {
      f.Is(op) && f.payload == payload
    }
  }

  /** The reply is pending or has been accepted since. */
  ghost predicate Owed(ctx: Context, r: Reply) {
    || (ctx.additional.Some? && r.Is(ctx.additional.value))
    || exists i | r.due <= i < |ctx.codec.sent| :: r.Is(ctx.codec.sent[i])
  }

  lemma BufferOwed(ctx: Context, s: Stream, f: Frame, r: Reply)
    requires Owed(ctx, r)
    ensures Owed(Buffer(ctx, s, f).ctx, r)
  {
    hide Buffer, Reply.Is;
    BufferAppends(ctx, s, f);
    var sent, sent' := ctx.codec.sent, Buffer(ctx, s, f).ctx.codec.sent;
    assert forall i | 0 <= i < |sent| :: sent'[i] == sent[i];
  }

  lemma SendAdditionalOwed(ctx: Context, s: Stream, r: Reply)
    requires Owed(ctx, r) && r.due <= |ctx.codec.sent|
    ensures Owed(SendAdditional(ctx, s).ctx, r)
  {
    hide Buffer;
    if ctx.additional.Some? {
      var f, cleared := ctx.additional.value, ctx.(additional := None);
      BufferAppends(cleared, s, f);
      var b := Buffer(cleared, s, f);
      var sent, sent' := ctx.codec.sent, b.ctx.codec.sent;
      assert forall i | 0 <= i < |sent| :: sent'[i] == sent[i];
      if r.Is(f) && !(b.result.Err? && b.result.error.WriteBufferFull?) {
        assert r.Is(sent'[|sent|]);
      }
    }
  }

  lemma WriteInnerOwed(ctx: Context, s: Stream, data: Option<Frame>, r: Reply)
    requires Owed(ctx, r) && r.due <= |ctx.codec.sent|
    ensures var w := WriteInner(ctx, s, data).ctx; Owed(w, r) && r.due <= |w.codec.sent|
  {
    hide Buffer, SendAdditional, WriteOutBuffer, Reply.Is;
    if data.Some? {
      BufferOwed(ctx, s, data.value, r);
      BufferAppends(ctx, s, data.value);
    }
    var b := if data.Some? then Buffer(ctx, s, data.value) else Step(ctx, s, Ok(()));
    SendAdditionalOwed(b.ctx, b.stream, r);
    SendAdditionalGrows(b.ctx, b.stream);
  }

  lemma SendAdditionalGrows(ctx: Context, s: Stream)
    ensures |ctx.codec.sent| <= |SendAdditional(ctx, s).ctx.codec.sent|
  {
    hide Buffer;
    if ctx.additional.Some? {
      BufferAppends(ctx.(additional := None), s, ctx.additional.value);
    }
  }

  lemma FlushOwed(ctx: Context, s: Stream, r: Reply)
    requires Owed(ctx, r) && r.due <= |ctx.codec.sent|
    ensures var w := Flush(ctx, s).ctx; Owed(w, r) && r.due <= |w.codec.sent|
  {
    hide WriteInner, WriteOutBuffer, Reply.Is;
    WriteInnerOwed(ctx, s, None, r);
  }

  lemma ShutOwed(ctx: Context, s: Stream, reason: Option<CloseReason>, r: Reply)
    requires Owed(ctx, r) && r.due <= |ctx.codec.sent|
    ensures var w := Shut(ctx, s, reason).ctx; Owed(w, r) && r.due <= |w.codec.sent|
  {
    hide WriteInner, Flush, Reply.Is;
    if ctx.state.Active? {
      var ctx' := ctx.(state := ClosedByUs);
      WriteInnerOwed(ctx', s, CloseFrame(reason), r);
      var w := WriteInner(ctx', s, CloseFrame(reason));
      FlushOwed(w.ctx, w.stream, r);
    } else {
      FlushOwed(ctx, s, r);
    }
  }

  lemma WriteFrameOwed(ctx: Context, s: Stream, f: Frame, r: Reply)
    requires Owed(ctx, r) && r.due <= |ctx.codec.sent|
    ensures var w := WriteFrame(ctx, s, f).ctx; Owed(w, r) && r.due <= |w.codec.sent|
  {
    hide WriteInner, Flush, Owed;
    WriteInnerOwed(ctx, s, Some(f), r);
    var w := WriteInner(ctx, s, Some(f));
    FlushOwed(w.ctx, w.stream, r);
  }

  /** Only a Pong of the user can take the place of a pending Pong when writing. */
  lemma WriteOwed(ctx: Context, s: Stream, message: Message, r: Reply)
    requires Owed(ctx, r) && r.due <= |ctx.codec.sent|
    requires message.Pong? ==> r.op == CLOSE
    ensures var w := Write(ctx, s, message).ctx; Owed(w, r) && r.due <= |w.codec.sent|
  {
    hide WriteFrame, WriteInner, Shut, Owed;
    match message
    case Text(data) => WriteFrameOwed(ctx, s, MessageFrame(data, DataOp.Text, true), r);
    case Binary(data) => WriteFrameOwed(ctx, s, MessageFrame(data, DataOp.Binary, true), r);
    case Ping(data) => WriteFrameOwed(ctx, s, PingFrame(data), r);
    case Pong(data) =>
      SetAdditionalOwed(ctx, PongFrame(data), r);
      WriteInnerOwed(SetAdditional(ctx, PongFrame(data)), s, None, r);
    case Close(reason) => ShutOwed(ctx, s, reason, r);
    case Raw(f) => WriteFrameOwed(ctx, s, f, r);
  }

  lemma SetAdditionalOwed(ctx: Context, f: Frame, r: Reply)
    requires Owed(ctx, r) && r.op == CLOSE
    ensures Owed(SetAdditional(ctx, f), r)
  {
  }

  /** The frame handled brings a new reply in place of a pending Pong. */
  predicate Supersedes(result: Result<Option<Message>>) {
    result.Ok? && result.value.Some? && (result.value.value.Ping? || result.value.value.Close?)
  }

  lemma HandleFrameOwed(ctx: Context, f: Frame, r: Reply)
    requires Owed(ctx, r)
    ensures var h := HandleFrame(ctx, f);
            h.ctx.codec == ctx.codec && (r.op == CLOSE || !Supersedes(h.result) ==> Owed(h.ctx, r))
  {
    hide HandleData, ReadClose;
    HandleDataKeeps(ctx, ApplyMask(f));
    HandleDataKeeps(ctx, f);
  }

  lemma {:induction false} ReadLoopOwed(ctx: Context, s: Stream, r: Reply)
    requires Owed(ctx, r) && r.due <= |ctx.codec.sent|
    ensures var l := ReadLoop(ctx, s);
            && r.due <= |l.ctx.codec.sent|
            && (r.op == CLOSE || !(l.result.Ok? && (l.result.value.Ping? || l.result.value.Close?)) ==> Owed(l.ctx, r))
    decreases Unread(ctx.codec, s)
  {
    hide Flush, ReadFrame, HandleFrame, Reply.Is;
    FlushOwed(ctx, s, r);
    var b := BeforeRead(ctx, s);
    if b.result.Ok? {
      var raw := ReadFrame(b.ctx.codec, b.stream, b.ctx.config.FrameLimit());
      if raw.result.Ok? && raw.result.value.Some? {
        HandleFrameOwed(b.ctx.(codec := raw.codec), raw.result.value.value, r);
      }
      var m := ReadMessageFrame(b.ctx, b.stream);
      ReadProgress(ctx, s);
      if m.result == Ok(None) {
        ReadLoopOwed(m.ctx, m.stream, r);
      }
    }
  }

  /** A call of the user that takes the place of a pending Pong, or a read that does. */
  predicate Replaces(call: Call, result: Result<Option<Message>>) {
    (call.ReadCall? && Supersedes(result)) || (call.WriteCall? && call.message.Pong?)
  }

  predicate Undisturbed(calls: seq<Call>, results: seq<Result<Option<Message>>>)
    requires |calls| == |results|
  {
    forall i | 0 <= i < |calls| :: !Replaces(calls[i], results[i])
  }

  lemma PerformOwed(ctx: Context, s: Stream, call: Call, r: Reply)
    requires Owed(ctx, r) && r.due <= |ctx.codec.sent|
    ensures var p := Perform(ctx, s, call);
            r.due <= |p.ctx.codec.sent| && (r.op == CLOSE || !Replaces(call, p.result) ==> Owed(p.ctx, r))
  {
    hide ReadLoop, Write, Flush, Shut, Owed;
    match call
    case ReadCall => ReadLoopOwed(ctx, s, r);
    case WriteCall(m) =>
      if m.Pong? && r.op != CLOSE {
        PongWriteGrows(ctx, s, m);
      } else {
        WriteOwed(ctx, s, m, r);
      }
    case FlushCall => FlushOwed(ctx, s, r);
    case CloseCall(reason) => ShutOwed(ctx, s, reason, r);
  }

  lemma PongWriteGrows(ctx: Context, s: Stream, m: Message)
    requires m.Pong?
    ensures |ctx.codec.sent| <= |Write(ctx, s, m).ctx.codec.sent|
  {
    hide SendAdditional, WriteOutBuffer;
    SendAdditionalGrows(SetAdditional(ctx, PongFrame(m.data)), s);
  }

  /** A Close reply stays owed over any calls; a Pong over any that bring no other reply in its place. */
  lemma {:induction false} SessionOwed(ctx: Context, s: Stream, calls: seq<Call>, r: Reply)
    requires Owed(ctx, r) && r.due <= |ctx.codec.sent|
    requires r.op == CLOSE || Undisturbed(calls, Play(ctx, s, calls).results)
    ensures Owed(Play(ctx, s, calls).ctx, r)
    decreases calls
  {
    hide Perform, Owed, Replaces;
    if calls != [] {
      PerformOwed(ctx, s, calls[0], r);
      var first := Perform(ctx, s, calls[0]);
      var all, others := Play(ctx, s, calls).results, Play(first.ctx, first.stream, calls[1..]).results;
      assert all[0] == first.result && forall i | 0 <= i < |others| :: others[i] == all[i + 1];
      assert forall i | 0 <= i < |others| :: calls[1..][i] == calls[i + 1];
      SessionOwed(first.ctx, first.stream, calls[1..], r);
    }
  }

  /**
   The peer closes an active connection with a reason: whatever calls follow, however often the buffer is
   full or the stream refuses, the reply stays pending until it is in the buffer.  Its code is the peer's
   if that may be sent, and a protocol error otherwise.
   */
  lemma ReplyIsNeverDropped(ctx: Context, s: Stream, reason: CloseReason, calls: seq<Call>)
    requires Disciplined(ctx) && ctx.state.Active?
    ensures var (closed, message) := DoClose(ctx, Some(reason));
            var answer := if reason.code.IsAllowed() then reason
                          else CloseReason(CloseCode.Protocol, PROTOCOL_VIOLATION);
            && message == Some(Message.Close(Some(answer)))
            && Owed(Play(closed, s, calls).ctx, Reply(CLOSE, CloseFrame(Some(answer)).value.payload, |ctx.codec.sent|))
  {
    hide Play, NoClose, CloseLast, PongAfterClose;
    var (closed, message) := DoClose(ctx, Some(reason));
    var answer := if reason.code.IsAllowed() then reason
                  else CloseReason(CloseCode.Protocol, PROTOCOL_VIOLATION);
    SessionOwed(closed, s, calls, Reply(CLOSE, CloseFrame(Some(answer)).value.payload, |ctx.codec.sent|));
  }

  // ---------------------------------------------------------------- closing from our side

  lemma FlushWithoutClose(ctx: Context, s: Stream)
    requires NoClose(ctx.codec.sent) && (ctx.additional.Some? ==> PendingIs(ctx, PONG))
    ensures NoClose(Flush(ctx, s).ctx.codec.sent)
    ensures var w := WriteInner(ctx, s, None);
            NoClose(w.ctx.codec.sent) && (w.ctx.additional.Some? ==> PendingIs(w.ctx, PONG))
  {
    hide Buffer, WriteOutBuffer;
    if ctx.additional.Some? {
      BufferAppends(ctx.(additional := None), s, ctx.additional.value);
    }
  }

  lemma KeepsClose(ctx: Context, s: Stream)
    requires !NoClose(ctx.codec.sent)
    ensures !NoClose(SendAdditional(ctx, s).ctx.codec.sent)
    ensures !NoClose(Flush(ctx, s).ctx.codec.sent)
  {
    hide Buffer, WriteOutBuffer;
    if ctx.additional.Some? {
      BufferAppends(ctx.(additional := None), s, ctx.additional.value);
    }
  }

  /** A close frame has been accepted since. */
  ghost predicate NewClose(before: seq<Frame>, after: seq<Frame>) {
    exists i | |before| <= i < |after| :: after[i].Is(CLOSE)
  }

  /** On an active connection the call queues a close frame exactly when a reason is given and its frame fits. */
  lemma ActiveCloseQueuesIff(ctx: Context, s: Stream, reason: Option<CloseReason>)
    requires Disciplined(ctx) && ctx.state.Active?
    ensures !NoClose(Shut(ctx, s, reason).ctx.codec.sent)
       <==> reason.Some? && HasRoom(ctx, s, CloseFrame(reason).value)
  {
    hide WriteInner, Flush, HasRoom, NoClose;
    var ctx' := ctx.(state := ClosedByUs);
    CloseWithoutReason(ctx', s);
    if reason.Some? {
      CloseWithReason(ctx', s, reason.value);
      assert HasRoom(ctx', s, CloseFrame(reason).value) == HasRoom(ctx, s, CloseFrame(reason).value) by {
        SameRoom(ctx, s, CloseFrame(reason).value);
      }
    }
  }

  lemma SentGrows(ctx: Context, s: Stream, data: Option<Frame>)
    ensures ctx.codec.sent <= WriteInner(ctx, s, data).ctx.codec.sent
  {
    hide Buffer, WriteOutBuffer;
    if data.Some? {
      BufferAppends(ctx, s, data.value);
    }
    var b := if data.Some? then Buffer(ctx, s, data.value) else Step(ctx, s, Ok(()));
    if b.ctx.additional.Some? {
      BufferAppends(b.ctx.(additional := None), b.stream, b.ctx.additional.value);
    }
  }

  lemma ShutGrows(ctx: Context, s: Stream, reason: Option<CloseReason>)
    ensures ctx.codec.sent <= Shut(ctx, s, reason).ctx.codec.sent
  {
    hide WriteInner, WriteOutBuffer;
    if ctx.state.Active? {
      var ctx' := ctx.(state := ClosedByUs);
      SentGrows(ctx', s, CloseFrame(reason));
      var w := WriteInner(ctx', s, CloseFrame(reason));
      SentGrows(w.ctx, w.stream, None);
    } else {
      SentGrows(ctx, s, None);
    }
  }

  lemma NewCloseIff(before: seq<Frame>, after: seq<Frame>)
    requires before <= after && NoClose(before)
    ensures NewClose(before, after) <==> !NoClose(after)
  {
    assert forall i | 0 <= i < |before| :: after[i] == before[i] && before[i] in before;
    assert forall i | 0 <= i < |after| :: after[i] in after;
  }

  /** A flush sends the pending reply, if it has room for it. */
  lemma FlushNewCloseIff(ctx: Context, s: Stream)
    ensures NewClose(ctx.codec.sent, Flush(ctx, s).ctx.codec.sent)
       <==> PendingIs(ctx, CLOSE) && HasRoom(ctx, s, ctx.additional.value)
  {
    hide Buffer, WriteOutBuffer, HasRoom;
    if ctx.additional.Some? {
      var cleared := ctx.(additional := None);
      BufferAppends(cleared, s, ctx.additional.value);
      FullIffNoRoom(cleared, s, ctx.additional.value);
      assert HasRoom(cleared, s, ctx.additional.value) == HasRoom(ctx, s, ctx.additional.value) by {
        RoomWithoutPending(ctx, s, ctx.additional.value);
      }
      var sent, sent' := ctx.codec.sent, Flush(ctx, s).ctx.codec.sent;
      if HasRoom(ctx, s, ctx.additional.value) {
        assert |sent'| == |sent| + 1 && sent'[|sent|].header.opcode == ctx.additional.value.header.opcode;
      }
    }
  }

  lemma RoomWithoutPending(ctx: Context, s: Stream, f: Frame)
    ensures HasRoom(ctx.(additional := None), s, f) == HasRoom(ctx, s, f)
  {
  }

  /**
   The documentation of `close` promises that the close frame will be queued.  In every state of a
   connection, this is exactly when the call queues a close frame: an active connection is given a reason
   whose frame fits; or the connection is closing, a Close reply is pending and fits (and then that is what
   is queued, whatever the reason given).
   */
  lemma CloseQueuesIff(ctx: Context, s: Stream, reason: Option<CloseReason>)
    requires Disciplined(ctx)
    ensures NewClose(ctx.codec.sent, Shut(ctx, s, reason).ctx.codec.sent)
       <==> if ctx.state.Active? then reason.Some? && HasRoom(ctx, s, CloseFrame(reason).value)
            else PendingIs(ctx, CLOSE) && HasRoom(ctx, s, ctx.additional.value)
  {
    hide WriteInner, Flush, HasRoom, NoClose, NewClose, CloseLast, PongAfterClose;
    if ctx.state.Active? {
      ActiveCloseQueuesIff(ctx, s, reason);
      ShutGrows(ctx, s, reason);
      NewCloseIff(ctx.codec.sent, Shut(ctx, s, reason).ctx.codec.sent);
    } else {
      FlushNewCloseIff(ctx, s);
    }
  }

  /** In particular, of all connections with nothing of a close yet, only an active one queues its close. */
  lemma FirstCloseQueuesIff(ctx: Context, s: Stream, reason: Option<CloseReason>)
    requires Disciplined(ctx) && NoClose(ctx.codec.sent) && !PendingIs(ctx, CLOSE)
    ensures !NoClose(Shut(ctx, s, reason).ctx.codec.sent)
       <==> ctx.state.Active? && reason.Some? && HasRoom(ctx, s, CloseFrame(reason).value)
  {
    hide Shut, HasRoom, NoClose, NewClose, CloseLast, PongAfterClose;
    CloseQueuesIff(ctx, s, reason);
    ShutGrows(ctx, s, reason);
    NewCloseIff(ctx.codec.sent, Shut(ctx, s, reason).ctx.codec.sent);
  }

  /** Calling `close` again does not help: after a first close without a reason, none is ever sent. */
  lemma SecondCloseSendsNothing(role: Role, config: Config, s: Stream, reason: CloseReason)
    ensures var first := Shut(NewContext(role, [], config), s, None);
            Shut(first.ctx, first.stream, Some(reason)).ctx.codec.sent == []
  {
    hide CloseFrame, WriteOut;
    CloseWithoutReasonSendsNothing(role, config, s);
    assert CloseFrame(None) == None by { NoReasonNoFrame(); }
  }

  lemma NoReasonNoFrame()
    ensures CloseFrame(None) == None
  {
  }

  /** The promise fails on the plainest input: closing a fresh connection without a reason sends nothing. */
  lemma CloseWithoutReasonSendsNothing(role: Role, config: Config, s: Stream)
    ensures Shut(NewContext(role, [], config), s, None).ctx.codec.sent == []
  {
  }

  predicate HasRoom(ctx: Context, s: Stream, f: Frame) {
    Prepared(ctx.role, s, f).0.Len() + |ctx.codec.output| <= ctx.codec.maxOutput
  }

  lemma SameRoom(ctx: Context, s: Stream, f: Frame)
    ensures HasRoom(ctx.(state := ClosedByUs), s, f) == HasRoom(ctx, s, f)
  {
  }

  lemma CloseWithoutReason(ctx: Context, s: Stream)
    requires NoClose(ctx.codec.sent) && (ctx.additional.Some? ==> PendingIs(ctx, PONG))
    ensures var w := WriteInner(ctx, s, None);
            NoClose(w.ctx.codec.sent) && NoClose(Flush(w.ctx, w.stream).ctx.codec.sent)
  {
    hide WriteInner, Flush;
    FlushWithoutClose(ctx, s);
    var w := WriteInner(ctx, s, None);
    FlushWithoutClose(w.ctx, w.stream);
  }

  lemma CloseWithReason(ctx: Context, s: Stream, reason: CloseReason)
    requires NoClose(ctx.codec.sent)
    ensures var w := WriteInner(ctx, s, CloseFrame(Some(reason)));
            && (HasRoom(ctx, s, CloseFrame(Some(reason)).value) ==>
                  !NoClose(w.ctx.codec.sent) && !NoClose(Flush(w.ctx, w.stream).ctx.codec.sent))
            && (!HasRoom(ctx, s, CloseFrame(Some(reason)).value) ==>
                  w.result.Err? && NoClose(w.ctx.codec.sent))
  {
    hide Flush, Buffer, SendAdditional, WriteOutBuffer, HasRoom;
    var f := CloseFrame(Some(reason)).value;
    var b := Buffer(ctx, s, f);
    FullIffNoRoom(ctx, s, f);
    BufferAppends(ctx, s, f);
    var w := WriteInner(ctx, s, Some(f));
    if HasRoom(ctx, s, f) {
      var sent' := b.ctx.codec.sent;
      assert sent'[|sent'| - 1] in sent';
      KeepsClose(b.ctx, b.stream);
      KeepsClose(w.ctx, w.stream);
    }
  }

  lemma FullIffNoRoom(ctx: Context, s: Stream, f: Frame)
    ensures var r := Buffer(ctx, s, f).result;
            (r.Err? && r.error.WriteBufferFull?) == !HasRoom(ctx, s, f)
  {
    hide WriteOut, FormatFrame;
  }
}
