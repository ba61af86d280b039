/**
 How the end of a connection is reported (`src/adapters/ws/protocol/mod.rs`): as a clean close only after the
 peer's Close, as a reset otherwise.
 */
module Ending {
  import opened Base
  import opened Frames
  import opened Streams
  import opened Codecs
  import opened Messages
  import opened Contexts
  import opened Sessions
  import opened Closing

  /** The peer's Close has been received and the connection has not ended. */
  predicate PeerClosed(state: State) {
    state.ClosedByPeer? || state.CloseAcknowledged?
  }

  predicate IsCleanClose<T>(r: Result<T>) {
    r == Err(ConnectionClosed)
  }

  predicate IsReset<T>(r: Result<T>) {
    r == Err(Violation(ResetWithoutClosingHandshake))
  }

  predicate IsClose(r: Result<Option<Message>>) {
    r.Ok? && r.value.Some? && r.value.value.Close?
  }

  /** Writing alone never brings the peer's Close, nor reports a clean close before it. */
  lemma WriteInnerEnding(ctx: Context, s: Stream, data: Option<Frame>)
    ensures var r := WriteInner(ctx, s, data);
            && (r.ctx.state == ctx.state || r.ctx.state.Terminated?)
            && (IsCleanClose(r.result) || r.ctx.state != ctx.state ==> !ctx.state.CanRead())
            && !IsReset(r.result)
  {
    hide BufferFrame, WriteOut;
    BufferErrors();
  }

  lemma BufferErrors()
    ensures forall f, c, s' :: var b := BufferFrame(c, s', f).result; b.Err? ==> b.error.Io? || b.error.WriteBufferFull?
  {
    hide FormatFrame, WriteOut;
  }

  lemma FlushEnding(ctx: Context, s: Stream)
    ensures var r := Flush(ctx, s);
            && (r.ctx.state == ctx.state || r.ctx.state.Terminated?)
            && (IsCleanClose(r.result) || r.ctx.state != ctx.state ==> !ctx.state.CanRead())
            && !IsReset(r.result)
            && (r.result.Ok? || r.result == Err(Io(WouldBlock)) ==> r.ctx.state == ctx.state)
  {
    hide BufferFrame, WriteOut, WriteInner;
    WriteInnerEnding(ctx, s, None);
    WriteInnerTerminates(ctx, s);
  }

  lemma WriteInnerTerminates(ctx: Context, s: Stream)
    ensures var r := WriteInner(ctx, s, None); r.ctx.state != ctx.state ==> IsCleanClose(r.result)
  {
    hide BufferFrame, WriteOut;
  }

  /** A frame moves the connection past the peer's Close only by being that Close. */
  lemma HandleFrameEnding(ctx: Context, f: Frame)
    requires !ctx.state.Terminated?
    ensures var h := HandleFrame(ctx, f);
            && (h.ctx.state != ctx.state ==> PeerClosed(h.ctx.state) && IsClose(h.result))
            && !IsCleanClose(h.result) && !IsReset(h.result)
  {
    hide ReadClose, HandleData;
    HandleDataEnding(ctx, f);
    HandleDataEnding(ctx, ApplyMask(f));
  }

  lemma HandleDataEnding(ctx: Context, f: Frame)
    ensures f.header.opcode.Data? ==>
              var h := HandleData(ctx, f);
              h.ctx.state == ctx.state && !IsCleanClose(h.result) && !IsReset(h.result)
  {
    hide ExtendText;
  }

  lemma ReadMessageFrameEnding(ctx: Context, s: Stream)
    requires !ctx.state.Terminated?
    ensures var r := ReadMessageFrame(ctx, s);
            && (IsCleanClose(r.result) ==> PeerClosed(ctx.state))
            && (IsReset(r.result) ==> ctx.state.CanRead() && r.ctx.state.Terminated?)
            && (PeerClosed(r.ctx.state) && r.ctx.state != ctx.state ==> IsClose(r.result))
            && (r.result == Ok(None) ==> r.ctx.state == ctx.state)
  {
    hide ReadFrame, HandleFrame;
    var raw := ReadFrame(ctx.codec, s, ctx.config.FrameLimit());
    ReadFrameErrors(ctx.codec, s, ctx.config.FrameLimit());
    if raw.result.Ok? && raw.result.value.Some? {
      HandleFrameEnding(ctx.(codec := raw.codec), raw.result.value.value);
    }
  }

  lemma {:induction false} ReadFrameErrors(c: Codec, s: Stream, maxSize: nat)
    ensures var r := ReadFrame(c, s, maxSize).result;
            r.Err? ==> r.error.Io? || r.error.MessageTooLong? || (r.error.Violation? && r.error.error.InvalidOpcode?)
    decreases |s.incoming|
  {
    hide ParseHeader;
    var t := TakeFrame(c, maxSize);
    if t.Short? && s.incoming != [] && s.incoming[0].Chunk? && s.incoming[0].data != [] {
      ReadFrameErrors(t.codec.(input := t.codec.input + s.incoming[0].data), s.(incoming := s.incoming[1..]), maxSize);
    }
  }

  lemma {:induction false} ReadLoopEnding(ctx: Context, s: Stream)
    requires !ctx.state.Terminated?
    ensures var r := ReadLoop(ctx, s);
            && (IsCleanClose(r.result) ==> PeerClosed(ctx.state))
            && (IsReset(r.result) ==> ctx.state.CanRead() && r.ctx.state.Terminated?)
            && (PeerClosed(r.ctx.state) && r.ctx.state != ctx.state ==> r.result.Ok? && r.result.value.Close?)
    decreases Unread(ctx.codec, s)
  {
    hide Flush, ReadMessageFrame;
    FlushEnding(ctx, s);
    var b := BeforeRead(ctx, s);
    if b.result.Ok? {
      ReadMessageFrameEnding(b.ctx, b.stream);
      var r := ReadMessageFrame(b.ctx, b.stream);
      ReadProgress(ctx, s);
      if r.result == Ok(None) {
        ReadLoopEnding(r.ctx, r.stream);
      }
    }
  }

  lemma WriteEnding(ctx: Context, s: Stream, message: Message)
    ensures PeerClosed(Write(ctx, s, message).ctx.state) ==> Write(ctx, s, message).ctx.state == ctx.state
  {
    hide WriteInner, Flush, Shut;
    if ctx.state.Active? {
      forall f ensures !PeerClosed(WriteFrame(ctx, s, f).ctx.state) {
        WriteInnerEnding(ctx, s, Some(f));
        var w := WriteInner(ctx, s, Some(f));
        FlushEnding(w.ctx, w.stream);
      }
      if message.Pong? {
        WriteInnerEnding(SetAdditional(ctx, PongFrame(message.data)), s, None);
      } else if message.Close? {
        ShutEnding(ctx, s, message.reason);
      }
    }
  }

  lemma ShutEnding(ctx: Context, s: Stream, reason: Option<CloseReason>)
    ensures PeerClosed(Shut(ctx, s, reason).ctx.state) ==> Shut(ctx, s, reason).ctx.state == ctx.state
  {
    hide WriteInner, Flush;
    var ctx' := ctx.(state := ClosedByUs);
    WriteInnerEnding(ctx', s, CloseFrame(reason));
    var w := WriteInner(ctx', s, CloseFrame(reason));
    FlushEnding(w.ctx, w.stream);
    FlushEnding(ctx, s);
  }

  /** Only a read that returns the peer's Close moves a connection past it. */
  lemma PerformEnding(ctx: Context, s: Stream, call: Call)
    ensures var r := Perform(ctx, s, call);
            PeerClosed(r.ctx.state) && r.ctx.state != ctx.state ==> IsClose(r.result)
  {
    hide ReadLoop, Write, Flush, Shut;
    match call
    case ReadCall => if !ctx.state.Terminated? { ReadLoopEnding(ctx, s); }
    case WriteCall(m) => WriteEnding(ctx, s, m);
    case FlushCall => FlushEnding(ctx, s);
    case CloseCall(reason) => ShutEnding(ctx, s, reason);
  }

  predicate SawClose(results: seq<Result<Option<Message>>>) {
    exists r | r in results :: IsClose(r)
  }

  lemma {:induction false} PeerClosedWasSeen(ctx: Context, s: Stream, calls: seq<Call>)
    ensures var r := Play(ctx, s, calls); PeerClosed(r.ctx.state) ==> PeerClosed(ctx.state) || SawClose(r.results)
    decreases calls
  {
    hide Perform, IsClose;
    if calls != [] {
      PerformEnding(ctx, s, calls[0]);
      var first := Perform(ctx, s, calls[0]);
      PeerClosedWasSeen(first.ctx, first.stream, calls[1..]);
      var results, others := Play(ctx, s, calls).results, Play(first.ctx, first.stream, calls[1..]).results;
      assert results == [first.result] + others;
      assert first.result in results;
    }
  }

  /**
   In every session: a read reports a clean close only if an earlier read returned the peer's Close, and a
   reset without closing handshake only while the peer's Close had not come; the reset ends the connection.
   */
  lemma EndIsReportedRightly(role: Role, part: Bytes, config: Config, s: Stream, calls: seq<Call>)
    ensures var at := Play(NewContext(role, part, config), s, calls);
            var r := Read(at.ctx, at.stream);
            && (IsCleanClose(r.result) ==> SawClose(at.results))
            && (IsReset(r.result) ==> at.ctx.state.CanRead() && r.ctx.state.Terminated?)
  {
    hide Play, ReadLoop, SawClose;
    var ctx := NewContext(role, part, config);
    PeerClosedWasSeen(ctx, s, calls);
    var at := Play(ctx, s, calls);
    if !at.ctx.state.Terminated? {
      ReadLoopEnding(at.ctx, at.stream);
    }
  }

  // ---------------------------------------------------------------- what a clean close leaves behind

  lemma {:induction false} DrainedIffNoFailure(output: Bytes, s: Stream)
    ensures WriteOut(output, s).output == [] <==> WriteOut(output, s).failure.None?
    decreases |output|
  {
    if output != [] && s.writes != [] && s.writes[0].Accepts? && s.writes[0].count > 0 {
      var n := Min(s.writes[0].count, |output|);
      DrainedIffNoFailure(output[n..], s.(writes := s.writes[1..], accepted := s.accepted + output[..n]));
    }
  }

  /**
   Nothing is buffered when no reply is pending; or the stream takes what is buffered together with the
   pending reply (without it, if it does not fit).
   */
  predicate HandsOver(ctx: Context, s: Stream) {
    match ctx.additional
    case None => ctx.codec.output == []
    case Some(f) =>
      var (f', s') := Prepared(ctx.role, s, f);
      var all := if HasRoom(ctx, s, f) then ctx.codec.output + FormatFrame(f') else ctx.codec.output;
      WriteOut(all, s').failure.None?
  }

  /** What buffering a pending reply leaves in the output, when the connection is closing. */
  lemma ReplyBuffered(ctx: Context, s: Stream)
    requires !ctx.state.CanRead() && ctx.additional.Some?
    ensures var a := SendAdditional(ctx, s);
            var all := if HasRoom(ctx, s, ctx.additional.value)
                       then ctx.codec.output + FormatFrame(Prepared(ctx.role, s, ctx.additional.value).0)
                       else ctx.codec.output;
            var s' := Prepared(ctx.role, s, ctx.additional.value).1;
            || (a.result.Ok? && a.ctx.codec.output == all && a.stream == s')
            || (var d := WriteOut(all, s');
                && a.ctx.codec.output == d.output && a.stream == d.stream
                && (if d.failure.None? then a.result.Ok?
                    else a.result == CheckReset(Err(Io(d.failure.value)), ctx.state)))
  {
    hide FormatFrame, WriteOut;
    var f' := Prepared(ctx.role, s, ctx.additional.value).0;
    FrameLenIsFormatted(f');
  }

  lemma FlushLeaves(ctx: Context, s: Stream)
    requires !ctx.state.CanRead() && ctx.additional.Some?
    ensures var f := Flush(ctx, s);
            f.result.Ok? || IsCleanClose(f.result) || f.result == Err(Io(WouldBlock)) ==>
              (f.ctx.codec.output == [] <==> HandsOver(ctx, s))
  {
    hide SendAdditional, WriteOut, FormatFrame, HasRoom;
    ReplyBuffered(ctx, s);
    var (f', s') := Prepared(ctx.role, s, ctx.additional.value);
    var all := if HasRoom(ctx, s, ctx.additional.value) then ctx.codec.output + FormatFrame(f') else ctx.codec.output;
    var a := SendAdditional(ctx, s);
    DrainedIffNoFailure(all, s');
    DrainedIffNoFailure(a.ctx.codec.output, a.stream);
    NothingToWrite(a.stream);
    NothingToWrite(WriteOut(a.ctx.codec.output, a.stream).stream);
  }

  lemma NothingToWrite(s: Stream)
    ensures WriteOut([], s) == Drained([], s, None)
  {
  }

  lemma ClosingReadsOnce(ctx: Context, s: Stream)
    requires !ctx.state.CanRead()
    ensures var r := ReadMessageFrame(ctx, s); r.result.Err? && r.ctx.codec.output == ctx.codec.output
  {
    hide ReadFrame;
  }

  lemma ClosingReadKeepsReply(ctx: Context, s: Stream)
    requires !ctx.state.CanRead()
    ensures var r := ReadMessageFrame(ctx, s).ctx; r.additional == ctx.additional && r.codec.sent == ctx.codec.sent
  {
    hide ReadFrame;
  }

  /** A flush takes the pending reply out of its slot exactly when it fits the buffer. */
  lemma FlushEmptiesSlotIff(ctx: Context, s: Stream)
    ensures Flush(ctx, s).ctx.additional.None?
       <==> ctx.additional.None? || HasRoom(ctx, s, ctx.additional.value)
  {
    hide Buffer, WriteOutBuffer, HasRoom;
    if ctx.additional.Some? {
      var cleared := ctx.(additional := None);
      FullIffNoRoom(cleared, s, ctx.additional.value);
      RoomWithoutPending(ctx, s, ctx.additional.value);
    }
  }

  /** Nothing is left to send: no byte in the buffer, and no reply pending. */
  predicate NothingLeft(ctx: Context) {
    ctx.codec.output == [] && ctx.additional.None?
  }

  /** No reply is pending and the buffer is empty; or the reply fits, and the stream takes it with the buffer. */
  predicate LetsGo(ctx: Context, s: Stream) {
    HandsOver(ctx, s) && (ctx.additional.Some? ==> HasRoom(ctx, s, ctx.additional.value))
  }

  /**
   A clean close is documented to mean that a close frame was both sent and received and that the connection
   may be dropped.  Whenever a read reports one, this is exactly when nothing is left to send; exactly when
   the buffer alone is empty; and exactly when the read has sent a close frame that was not sent before.
   */
  lemma CleanCloseHandsOverIff(ctx: Context, s: Stream)
    requires IsCleanClose(Read(ctx, s).result)
    ensures NothingLeft(Read(ctx, s).ctx) <==> LetsGo(ctx, s)
    ensures Read(ctx, s).ctx.codec.output == [] <==> HandsOver(ctx, s)
    ensures NewClose(ctx.codec.sent, Read(ctx, s).ctx.codec.sent)
       <==> PendingIs(ctx, CLOSE) && HasRoom(ctx, s, ctx.additional.value)
  {
    hide Flush, ReadMessageFrame, HandsOver, HasRoom, NewClose;
    ReadLoopEnding(ctx, s);
    assert !ctx.state.CanRead();
    var b := BeforeRead(ctx, s);
    if ctx.additional.Some? {
      FlushLeaves(ctx, s);
      FlushEnding(ctx, s);
      FlushEmptiesSlotIff(ctx, s);
      FlushNewCloseIff(ctx, s);
    } else {
      NoReplyHandsOver(ctx, s);
      NothingNew(ctx.codec.sent);
    }
    if b.result.Ok? {
      ClosingReadsOnce(b.ctx, b.stream);
      ClosingReadKeepsReply(b.ctx, b.stream);
    }
  }

  lemma NothingNew(sent: seq<Frame>)
    ensures !NewClose(sent, sent)
  {
  }

  lemma NoReplyHandsOver(ctx: Context, s: Stream)
    requires ctx.additional.None?
    ensures HandsOver(ctx, s) <==> ctx.codec.output == []
  {
  }

  /** The branch that ends a server does not look at its buffer: what a blocked stream left there is dropped. */
  lemma BlockedServerDrops(ctx: Context, s: Stream)
    requires ctx.role.Server? && ctx.state.ClosedByPeer? && ctx.additional.Some?
    requires HasRoom(ctx, s, ctx.additional.value)
    requires s.writes == [] && s.incoming == [] && ctx.codec.input == [] && ctx.codec.announced.None?
    ensures var first := Read(ctx, s);
            var second := Read(first.ctx, first.stream);
            && first.result == Err(Io(WouldBlock)) && IsCleanClose(second.result)
            && second.ctx.codec.output == ctx.codec.output + FormatFrame(ctx.additional.value)
            && second.stream.accepted == s.accepted
  {
    hide FormatFrame;
    var f := ctx.additional.value;
    var all := ctx.codec.output + FormatFrame(f);
    FrameLenIsFormatted(f);
    assert all != [] by { assert |FormatFrame(f)| >= 2; }
    assert WriteOut(all, s) == Drained(all, s, Some(WouldBlock));
    BlockedFlush(ctx, s);
    var first := Read(ctx, s);
    assert ParseHeader([]).NeedMore?;
    assert first.ctx.additional.None? && first.ctx.codec.output == all;
  }

  lemma BlockedFlush(ctx: Context, s: Stream)
    requires ctx.role.Server? && ctx.state.ClosedByPeer? && ctx.additional.Some? && s.writes == []
    requires HasRoom(ctx, s, ctx.additional.value)
    ensures var r := Flush(ctx, s);
            && r.result == Err(Io(WouldBlock)) && r.stream == s
            && r.ctx == ctx.(additional := None, codec := Appended(ctx.codec, ctx.additional.value))
  {
    hide FormatFrame;
    FrameLenIsFormatted(ctx.additional.value);
  }

  /** So does a full one, though the stream takes every byte: a reply that does not fit is dropped unsent. */
  lemma FullServerDrops(ctx: Context, s: Stream)
    requires ctx.role.Server? && ctx.state.ClosedByPeer? && ctx.additional.Some?
    requires !HasRoom(ctx, s, ctx.additional.value) && WriteOut(ctx.codec.output, s).failure.None?
    ensures var r := Read(ctx, s);
            && HandsOver(ctx, s) && !LetsGo(ctx, s) && IsCleanClose(r.result) && r.ctx.state.Terminated?
            && r.ctx.codec.output == [] && r.ctx.codec.sent == ctx.codec.sent && r.ctx.additional == ctx.additional
            && r.stream == WriteOut(ctx.codec.output, s).stream
  {
    hide FormatFrame, WriteOut;
    DrainedIffNoFailure(ctx.codec.output, s);
    FullFlush(ctx, s);
  }

  lemma FullFlush(ctx: Context, s: Stream)
    requires ctx.role.Server? && !ctx.state.CanRead() && ctx.additional.Some?
    requires !HasRoom(ctx, s, ctx.additional.value) && WriteOut(ctx.codec.output, s).failure.None?
    ensures var f := Flush(ctx, s);
            && IsCleanClose(f.result) && f.stream == WriteOut(ctx.codec.output, s).stream
            && f.ctx == ctx.(state := Terminated, codec := ctx.codec.(output := WriteOut(ctx.codec.output, s).output))
  {
    hide FormatFrame, WriteOut;
  }
}
