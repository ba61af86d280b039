/**
 The WebSocket context as the object that `src/adapters/ws/protocol/mod.rs` updates in place; each method
 does what the state machine of `Contexts` says.
 */
module ContextObjects {
  import opened Base
  import opened Coding
  import opened Frames
  import opened Streams
  import opened Codecs
  import opened Messages
  import opened Contexts
  import opened CodecObjects

  class WebSocketContext {
    const role: Role
    const frame: FrameCodec
    var state: State
    var incomplete: Option<Incomplete>
    var additional: Option<Frame>
    const config: Config

    ghost function View(): Context
      reads this, frame
    {
      Context(role, frame.View(), state, incomplete, additional, config)
    }

    constructor (role: Role, part: Bytes, config: Config)
      requires config.Valid()
      ensures View() == NewContext(role, part, config) && fresh(frame)
    {
      var codec := new FrameCodec(part);
      codec.SetLimits(config.maxWriteBufferSize, config.writeBufferSize);
      this.role, this.config, frame := role, config, codec;
      state, incomplete, additional := Active, None, None;
    }

    method BufferFrame(stream: Stream, f: Frame) returns (s: Stream, r: Result<()>)
      modifies frame
      ensures Step(View(), s, r) == Buffer(old(View()), stream, f)
    {
      hide Codecs.BufferFrame;
      s := stream;
      var prepared := f;
      if role.Client? {
        if s.masks == [] {
          prepared := f.(header := f.header.(mask := Some([0, 0, 0, 0])));
        } else {
          prepared := f.(header := f.header.(mask := Some(s.masks[0])));
          s := s.(masks := s.masks[1..]);
        }
      }
      s, r := frame.BufferFrame(s, prepared);
      r := CheckReset(r, state);
    }

    method SetAdditionalReply(f: Frame)
      modifies this`additional
      ensures View() == SetAdditional(old(View()), f)
    {
      if additional.None? || additional.value.Is(Control(ControlOp.Pong)) {
        additional := Some(f);
      }
    }

    method SendAdditionalReply(stream: Stream) returns (s: Stream, r: Result<bool>)
      modifies this`additional, frame
      ensures Step(View(), s, r) == SendAdditional(old(View()), stream)
    {
      hide Buffer;
      if additional.None? {
        return stream, Ok(false);
      }
      var pending := additional.value;
      additional := None;
      var sent;
      s, sent := BufferFrame(stream, pending);
      match sent {
        case Ok(_) => r := Ok(true);
        case Err(e) =>
          if e.WriteBufferFull? {
            SetAdditionalReply(e.frame);
            r := Ok(false);
          } else {
            r := Err(e);
          }
      }
    }

    method WriteFrames(stream: Stream, data: Option<Frame>) returns (s: Stream, r: Result<bool>)
      modifies this`additional, this`state, frame
      ensures Step(View(), s, r) == WriteInner(old(View()), stream, data)
    {
      hide Buffer, SendAdditional, Codecs.WriteOutBuffer;
      s := stream;
      if data.Some? {
        var buffered;
        s, buffered := BufferFrame(s, data.value);
        if buffered.Err? {
          return s, Err(buffered.error);
        }
      }
      s, r := SendAdditionalReply(s);
      if r.Ok? && role.Server? && !state.CanRead() {
        var written;
        s, written := frame.WriteOutBuffer(s);
        if written.Err? {
          return s, Err(written.error);
        }
        state := Terminated;
        r := Err(ConnectionClosed);
      }
    }

    method Flush(stream: Stream) returns (s: Stream, r: Result<()>)
      modifies this`additional, this`state, frame
      ensures Step(View(), s, r) == Contexts.Flush(old(View()), stream)
    {
      hide WriteInner, Codecs.WriteOutBuffer;
      var replied;
      s, replied := WriteFrames(stream, None);
      if replied.Err? {
        return s, Err(replied.error);
      }
      s, r := frame.WriteOutBuffer(s);
      if r.Ok? {
        var flushed := FlushStream(s);
        s, r := flushed.0, flushed.1;
      }
    }

    method Close(stream: Stream, reason: Option<CloseReason>) returns (s: Stream, r: Result<()>)
      modifies this`additional, this`state, frame
      ensures Step(View(), s, r) == Shut(old(View()), stream, reason)
    {
      hide WriteInner, Contexts.Flush;
      s := stream;
      if state.Active? {
        state := ClosedByUs;
        var written;
        s, written := WriteFrames(s, CloseFrame(reason));
        if written.Err? {
          return s, Err(written.error);
        }
      }
      s, r := Flush(s);
    }

    method Write(stream: Stream, message: Message) returns (s: Stream, r: Result<()>)
      modifies this`additional, this`state, frame
      ensures Step(View(), s, r) == Contexts.Write(old(View()), stream, message)
    {
      hide WriteInner, Contexts.Flush, Shut, SetAdditional;
      if state.Terminated? {
        return stream, Err(AlreadyClosed);
      }
      if !state.Active? {
        return stream, Err(Violation(SendAfterClosing));
      }
      var f;
      match message {
        case Text(data) => f := MessageFrame(data, DataOp.Text, true);
        case Binary(data) => f := MessageFrame(data, DataOp.Binary, true);
        case Ping(data) => f := PingFrame(data);
        case Pong(data) =>
          SetAdditionalReply(PongFrame(data));
          var written;
          s, written := WriteFrames(stream, None);
          r := if written.Err? then Err(written.error) else Ok(());
          return;
        case Close(reason) =>
          s, r := Close(stream, reason);
          return;
        case Raw(raw) => f := raw;
      }
      var shouldFlush;
      s, shouldFlush := WriteFrames(stream, Some(f));
      if shouldFlush.Err? {
        return s, Err(shouldFlush.error);
      }
      r := Ok(());
      if shouldFlush.value {
        s, r := Flush(s);
      }
    }

    /** The state `Terminated` is never met here, nor in any other method that is called while reading. */
    method AcceptClose(reason: Option<CloseReason>) returns (m: Option<Message>)
      requires !state.Terminated?
      modifies this`additional, this`state
      ensures (View(), m) == DoClose(old(View()), reason)
    {
      match state {
        case Active =>
          state := ClosedByPeer;
          var echoed := reason;
          if reason.Some? && !reason.value.code.IsAllowed() {
            echoed := Some(CloseReason(CloseCode.Protocol, PROTOCOL_VIOLATION));
          }
          var reply := CloseFrame(echoed);
          if reply.Some? {
            SetAdditionalReply(reply.value);
          }
          m := Some(Message.Close(echoed));
        case ClosedByUs =>
          state := CloseAcknowledged;
          m := Some(Message.Close(reason));
        case ClosedByPeer => m := None;
        case CloseAcknowledged => m := None;
      }
    }

    method AcceptControl(f: Frame) returns (r: Result<Option<Message>>)
      requires f.header.opcode.Control? && state.CanRead()
      modifies this`additional, this`state
      ensures Handled(View(), r) == HandleControl(old(View()), f)
    {
      hide DoClose, SetAdditional;
      if !f.header.fin {
        return Err(Violation(FragmentedControlFrame));
      }
      if |f.payload| > 125 {
        return Err(Violation(ControlFrameTooBig));
      }
      match f.header.opcode.control {
        case Close =>
          var close := ReadClose(f.payload);
          if close.InvalidSequence? {
            return Err(Violation(InvalidCloseSequence));
          }
          var m := AcceptClose(if close.NoReason? then None else Some(close.reason));
          r := Ok(m);
        case ReservedControl(i) => r := Err(Violation(UnknownControlFrameType(i)));
        case Ping =>
          if state.Active? {
            SetAdditionalReply(PongFrame(f.payload));
          }
          r := Ok(Some(Message.Ping(f.payload)));
        case Pong => r := Ok(Some(Message.Pong(f.payload)));
      }
    }

    method AcceptData(f: Frame) returns (r: Result<Option<Message>>)
      requires f.header.opcode.Data?
      modifies this`incomplete
      ensures Handled(View(), r) == HandleData(old(View()), f)
    {
      hide ExtendMessage, CompleteMessage;
      var op, limit := f.header.opcode.data, config.MessageLimit();
      if op.Continue? {
        if incomplete.None? {
          return Err(Violation(UnexpectedContinueFrame));
        }
        var grown := ExtendMessage(incomplete.value, f.payload, limit);
        incomplete := Some(grown.message);
        if grown.result.Err? {
          return Err(grown.result.error);
        }
        if !f.header.fin {
          return Ok(None);
        }
        var complete := CompleteMessage(incomplete.value);
        incomplete := None;
        return if complete.Err? then Err(complete.error) else Ok(Some(complete.value));
      }
      if incomplete.Some? {
        return Err(Violation(ExpectedFragment(op)));
      }
      if op.ReservedData? {
        return Err(Violation(UnknownDataFrameType(op.code)));
      }
      var start := if op.Text? then IncompleteText(EMPTY_COLLECTOR) else IncompleteBinary([]);
      var grown := ExtendMessage(start, f.payload, limit);
      if grown.result.Err? {
        return Err(grown.result.error);
      }
      if f.header.fin {
        var complete := CompleteMessage(grown.message);
        return if complete.Err? then Err(complete.error) else Ok(Some(complete.value));
      }
      incomplete := Some(grown.message);
      return Ok(None);
    }

    method AcceptFrame(f: Frame) returns (r: Result<Option<Message>>)
      modifies this`additional, this`state, this`incomplete
      ensures Handled(View(), r) == HandleFrame(old(View()), f)
    {
      hide HandleControl, HandleData, ApplyMask;
      if !state.CanRead() {
        return Err(Violation(ReceivedAfterClosing));
      }
      if f.header.rsv1 || f.header.rsv2 || f.header.rsv3 {
        return Err(Violation(NonZeroReservedBits));
      }
      var plain := f;
      if role.Server? {
        if f.header.mask.Some? {
          plain := ApplyMask(f);
        } else if !config.acceptUnmasked {
          return Err(Violation(UnmaskedFrameFromClient));
        }
      } else if f.header.mask.Some? {
        return Err(Violation(MaskedFrameFromServer));
      }
      if plain.header.opcode.Control? {
        r := AcceptControl(plain);
      } else {
        r := AcceptData(plain);
      }
    }

    method ReadMessage(stream: Stream) returns (s: Stream, r: Result<Option<Message>>)
      modifies this`additional, this`state, this`incomplete, frame
      ensures Step(View(), s, r) == ReadMessageFrame(old(View()), stream)
    {
      hide Codecs.ReadFrame, HandleFrame;
      var raw;
      s, raw := frame.ReadFrame(stream, config.maxFrameSize);
      var checked := CheckReset(raw, state);
      if checked.Err? {
        return s, Err(checked.error);
      }
      if checked.value.Some? {
        r := AcceptFrame(checked.value.value);
      } else {
        r := if state.ClosedByPeer? || state.CloseAcknowledged? then Err(ConnectionClosed)
             else Err(Violation(ResetWithoutClosingHandshake));
        state := Terminated;
      }
    }

    method Read(stream: Stream) returns (s: Stream, r: Result<Message>)
      modifies this`additional, this`state, this`incomplete, frame
      ensures Step(View(), s, r) == Contexts.Read(old(View()), stream)
    {
      hide Contexts.Flush, ReadMessageFrame, Arriving;
      if state.Terminated? {
        return stream, Err(AlreadyClosed);
      }
      s := stream;
      while true
        invariant ReadLoop(View(), s) == ReadLoop(old(View()), stream)
        decreases Unread(View().codec, s)
      {
        ghost var before, at := View(), s;
        ReadProgress(before, at);
        if additional.Some? {
          var flushed;
          s, flushed := Flush(s);
          if flushed.Err? && flushed.error != Io(WouldBlock) {
            return s, Err(flushed.error);
          }
          assert flushed.Ok? ==> flushed.value == ();
        } else if role.Server? && !state.CanRead() {
          state := Terminated;
          return s, Err(ConnectionClosed);
        }
        assert BeforeRead(before, at) == Step(View(), s, Ok(()));
        var m;
        s, m := ReadMessage(s);
        if m.Err? {
          return s, Err(m.error);
        }
        if m.value.Some? {
          return s, Ok(m.value.value);
        }
      }
    }
  }
}
