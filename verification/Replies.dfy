/**
 The replies that reading owes to the peer: a Pong for a Ping, a Close for a Close
 (sections 5.5.1 to 5.5.3 of RFC 6455).
 */
module Replies {
  import opened Base
  import opened Frames
  import opened Streams
  import opened Codecs
  import opened Messages
  import opened Contexts
  import opened Sessions
  import opened Closing
  import opened Ending
  import opened Writes

  /** What the context holds after a call that returned `m`. */
  predicate Answers(ctx: Context, m: Message) {
    && (m.Ping? && ctx.state.Active? ==> ctx.additional == Some(PongFrame(m.data)))
    && (m.Close? && ctx.state.ClosedByPeer? ==> ctx.additional == CloseFrame(m.reason) || m.reason.None?)
    && (m.Close? ==> ctx.state.ClosedByPeer? || ctx.state.CloseAcknowledged?)
  }

  lemma ControlAnswers(ctx: Context, f: Frame)
    requires Disciplined(ctx) && f.header.opcode.Control? && ctx.state.CanRead()
    ensures var h := HandleControl(ctx, f);
            h.result.Ok? && h.result.value.Some? ==> Answers(h.ctx, h.result.value.value)
  {
    hide ReadClose, NoClose, CloseLast, PongAfterClose, BigEndian;
  }

  lemma DataAnswers(ctx: Context, f: Frame)
    requires f.header.opcode.Data?
    ensures var h := HandleData(ctx, f); h.result.Ok? && h.result.value.Some? ==> Answers(h.ctx, h.result.value.value)
  {
    hide ExtendMessage;
  }

  lemma FrameAnswers(ctx: Context, f: Frame)
    requires Disciplined(ctx)
    ensures var h := HandleFrame(ctx, f); h.result.Ok? && h.result.value.Some? ==> Answers(h.ctx, h.result.value.value)
  {
    hide HandleControl, HandleData, Disciplined, Answers;
    if ctx.state.CanRead() {
      var o := Open(ctx.role, ctx.config.acceptUnmasked, f);
      if o.Opened? {
        if o.frame.header.opcode.Control? {
          ControlAnswers(ctx, o.frame);
        } else {
          DataAnswers(ctx, o.frame);
        }
      }
    }
  }

  lemma {:induction false} ReadAnswers(ctx: Context, s: Stream)
    requires Disciplined(ctx)
    ensures var r := ReadLoop(ctx, s); r.result.Ok? ==> Answers(r.ctx, r.result.value)
    decreases Unread(ctx.codec, s)
  {
    hide Flush, ReadFrame, HandleFrame, NoClose, CloseLast, PongAfterClose, Answers;
    FlushDisciplined(ctx, s);
    var b := BeforeRead(ctx, s);
    if b.result.Ok? {
      var raw := ReadFrame(b.ctx.codec, b.stream, b.ctx.config.FrameLimit());
      if raw.result.Ok? && raw.result.value.Some? {
        HandleFrameDisciplined(b.ctx.(codec := raw.codec), raw.result.value.value);
        FrameAnswers(b.ctx.(codec := raw.codec), raw.result.value.value);
      }
      var r := ReadMessageFrame(b.ctx, b.stream);
      ReadProgress(ctx, s);
      if r.result == Ok(None) {
        ReadAnswers(r.ctx, r.stream);
      }
    }
  }

  /** With room, a flush moves the pending reply, and only it, behind the frames sent before. */
  lemma FlushSendsReply(ctx: Context, s: Stream)
    requires ctx.additional.Some? && HasRoom(ctx, s, ctx.additional.value)
    ensures var r := Flush(ctx, s);
            && r.ctx.additional.None?
            && exists f :: r.ctx.codec.sent == ctx.codec.sent + [f]
                 && f.header.opcode == ctx.additional.value.header.opcode && f.payload == ctx.additional.value.payload
  {
    hide Buffer, WriteOutBuffer;
    var cleared := ctx.(additional := None);
    BufferAppends(cleared, s, ctx.additional.value);
    FullIffNoRoom(cleared, s, ctx.additional.value);
  }

  function ControlFrameOf(m: Message): Frame
    requires m.Ping? || m.Pong?
  {
    if m.Ping? then PingFrame(m.data) else PongFrame(m.data)
  }

  /** With room, a Ping or Pong of the user is sent as such; without, a Ping is refused and a Pong waits. */
  lemma ControlWriteSends(ctx: Context, s: Stream, m: Message)
    requires (m.Ping? || m.Pong?) && ctx.state.Active? && ctx.additional.None?
    ensures var r, f := Write(ctx, s, m), ControlFrameOf(m);
            if HasRoom(ctx, s, f) then
              && r.ctx.additional.None?
              && exists f' :: r.ctx.codec.sent == ctx.codec.sent + [f']
                   && f'.header.opcode == ControlFrameOf(m).header.opcode && f'.payload == m.data
            else
              && r.ctx.codec.sent == ctx.codec.sent
              && (m.Ping? <==> r.result.Err? && r.result.error.WriteBufferFull?)
              && (m.Pong? ==> r.ctx.additional.Some? && r.ctx.additional.value.payload == m.data)
  {
    hide Buffer, WriteOutBuffer, HasRoom;
    var f := ControlFrameOf(m);
    BufferAppends(ctx, s, f);
    FullIffNoRoom(ctx, s, f);
    assert ctx.(additional := None) == ctx;
  }

  /**
   In every session without raw frames: when a read returns a Ping and the connection is still active, the
   Pong with the same data is owed.  Over any further calls it stays pending until it has been accepted,
   unless a later Ping, a Pong of the user or the peer's Close takes its place; and the first flush that
   finds it pending and has room sends it.
   */
  lemma PingIsAnswered(role: Role, part: Bytes, config: Config, s: Stream, calls: seq<Call>, more: seq<Call>)
    requires NoRawFrames(calls)
    requires var at := Play(NewContext(role, part, config), s, calls);
             var r := Read(at.ctx, at.stream);
             r.result.Ok? && r.result.value.Ping? && r.ctx.state.Active?
    ensures var at := Play(NewContext(role, part, config), s, calls);
            var r := Read(at.ctx, at.stream);
            var pong := Reply(PONG, r.result.value.data, |r.ctx.codec.sent|);
            var later := Play(r.ctx, r.stream, more);
            && r.ctx.additional == Some(PongFrame(r.result.value.data))
            && (Undisturbed(more, later.results) ==> Owed(later.ctx, pong))
            && (later.ctx.additional.Some? && pong.Is(later.ctx.additional.value)
                && HasRoom(later.ctx, later.stream, later.ctx.additional.value) ==>
                  exists f :: Flush(later.ctx, later.stream).ctx.codec.sent == later.ctx.codec.sent + [f] && pong.Is(f))
  {
    hide Play, ReadLoop, Flush, HasRoom, NoRawFrames, Undisturbed;
    var ctx := NewContext(role, part, config);
    SessionDisciplined(ctx, s, calls);
    var at := Play(ctx, s, calls);
    ReadAnswers(at.ctx, at.stream);
    var r := Read(at.ctx, at.stream);
    var pong := Reply(PONG, r.result.value.data, |r.ctx.codec.sent|);
    var later := Play(r.ctx, r.stream, more);
    if Undisturbed(more, later.results) {
      SessionOwed(r.ctx, r.stream, more, pong);
    }
    if later.ctx.additional.Some? && HasRoom(later.ctx, later.stream, later.ctx.additional.value) {
      FlushSendsReply(later.ctx, later.stream);
    }
  }

  /**
   When a read returns the peer's Close with a reason on a connection we had not closed, the Close reply
   with the returned code and reason stays pending, over any further calls, until it has been accepted.
   */
  lemma CloseIsAnswered(role: Role, part: Bytes, config: Config, s: Stream, calls: seq<Call>, more: seq<Call>)
    requires NoRawFrames(calls)
    requires var at := Play(NewContext(role, part, config), s, calls);
             var r := Read(at.ctx, at.stream);
             r.result.Ok? && r.result.value.Close? && r.result.value.reason.Some? && r.ctx.state.ClosedByPeer?
    ensures var at := Play(NewContext(role, part, config), s, calls);
            var r := Read(at.ctx, at.stream);
            Owed(Play(r.ctx, r.stream, more).ctx,
                 Reply(CLOSE, CloseFrame(r.result.value.reason).value.payload, |r.ctx.codec.sent|))
  {
    hide Play, ReadLoop, NoRawFrames;
    var ctx := NewContext(role, part, config);
    SessionDisciplined(ctx, s, calls);
    var at := Play(ctx, s, calls);
    ReadAnswers(at.ctx, at.stream);
    var r := Read(at.ctx, at.stream);
    var payload := CloseFrame(r.result.value.reason).value.payload;
    SessionOwed(r.ctx, r.stream, more, Reply(CLOSE, payload, |r.ctx.codec.sent|));
  }

  /**
   `flush` is documented to write and flush all messages and queued replies.  When it answers `Ok`, the stream
   has taken every frame accepted so far, and this is exactly when no reply is left pending.
   */
  lemma FlushKeepsPromiseIff(ctx: Context, s: Stream)
    requires Flush(ctx, s).result.Ok?
    ensures var f := Flush(ctx, s).ctx;
            && f.codec.output == []
            && (f.additional.None? <==> ctx.additional.None? || HasRoom(ctx, s, ctx.additional.value))
  {
    hide WriteInner, WriteOut, HasRoom;
    FlushEmptiesSlotIff(ctx, s);
    var w := WriteInner(ctx, s, None);
    DrainedIffNoFailure(w.ctx.codec.output, w.stream);
  }

  /** A reply that does not fit stays pending, and the flush still answers `Ok`. */
  lemma FlushOkLeavesReply(ctx: Context, s: Stream)
    requires ctx.state.Active? && ctx.additional.Some? && !HasRoom(ctx, s, ctx.additional.value)
    requires ctx.codec.output == [] && s.flushes == []
    ensures var f := Flush(ctx, s);
            f.result.Ok? && f.ctx.additional.Some? && f.ctx.codec.sent == ctx.codec.sent
  {
    hide HasRoom, Buffer;
    var cleared := ctx.(additional := None);
    FullIffNoRoom(cleared, s, ctx.additional.value);
    RoomWithoutPending(ctx, s, ctx.additional.value);
    BufferAppends(cleared, s, ctx.additional.value);
    BufferKeepsAllFlushes(cleared, s, ctx.additional.value);
  }
}
