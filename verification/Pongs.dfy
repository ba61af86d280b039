/**
 No pong is made up: in a conversation, every pong that is heard answers a ping of its hearer, or was written
 by the other side's user (section 5.5.3 of RFC 6455).
 */
module Pongs {
  import opened Base
  import opened Coding
  import opened Frames
  import opened Streams
  import opened Codecs
  import opened Messages
  import opened Contexts
  import opened Sessions
  import opened Closing
  import opened EndToEnd
  import opened Links

  // ---------------------------------------------------------------- the pongs of a context

  predicate IsPong(f: Frame, data: Bytes) {
    f.Is(PONG) && f.payload == data
  }

  /** A pong with this data is pending or has been sent. */
  ghost predicate HasPong(ctx: Context, data: Bytes) {
    || (ctx.additional.Some? && IsPong(ctx.additional.value, data))
    || exists f :: f in ctx.codec.sent && IsPong(f, data)
  }

  /** The pongs of `ctx'` are those of `ctx`, and perhaps one with this data. */
  ghost predicate PongsKept(ctx: Context, ctx': Context, more: Option<Bytes>) {
    forall data :: HasPong(ctx', data) ==> HasPong(ctx, data) || more == Some(data)
  }

  lemma PongsKeptThen(a: Context, b: Context, c: Context, x: Option<Bytes>, y: Option<Bytes>)
    requires PongsKept(a, b, x) && PongsKept(b, c, y) && (x.None? || y.None?)
    ensures PongsKept(a, c, if x.Some? then x else y)
  {
    hide HasPong;
  }

  lemma SamePongs(ctx: Context, ctx': Context, more: Option<Bytes>)
    requires ctx'.additional == ctx.additional && ctx'.codec.sent == ctx.codec.sent
    ensures PongsKept(ctx, ctx', more)
  {
    hide IsPong;
  }

  /** Buffering brings at most the frame itself. */
  lemma BufferPongs(ctx: Context, s: Stream, f: Frame)
    ensures var b := Buffer(ctx, s, f);
            && b.ctx.additional == ctx.additional
            && (if Full(b.result) then b.ctx == ctx else
                  forall g | g in b.ctx.codec.sent :: g in ctx.codec.sent || (g.Is(PONG) ==> IsPong(f, g.payload)))
            && (Full(b.result) ==> forall data :: IsPong(b.result.error.frame, data) ==> IsPong(f, data))
  {
    hide Buffer;
    BufferAppends(ctx, s, f);
  }

  lemma BufferKeepsPongs(ctx: Context, s: Stream, f: Frame)
    requires !f.Is(PONG)
    ensures PongsKept(ctx, Buffer(ctx, s, f).ctx, None)
  {
    hide Buffer;
    BufferPongs(ctx, s, f);
  }

  lemma ReplyKeepsPongs(ctx: Context, s: Stream)
    ensures PongsKept(ctx, SendAdditional(ctx, s).ctx, None)
  {
    hide Buffer, IsPong;
    if ctx.additional.Some? {
      BufferPongs(ctx.(additional := None), s, ctx.additional.value);
      PongIsPong();
    }
  }

  lemma PongIsPong()
    ensures forall f, data :: IsPong(f, data) ==> f.Is(PONG) && f.payload == data
  {
  }

  lemma WriteInnerKeepsPongs(ctx: Context, s: Stream, data: Option<Frame>)
    requires data.Some? ==> !data.value.Is(PONG)
    ensures PongsKept(ctx, WriteInner(ctx, s, data).ctx, None)
  {
    hide Buffer, SendAdditional, PongsKept, WriteOut;
    SamePongs(ctx, ctx, None);
    if data.Some? {
      BufferKeepsPongs(ctx, s, data.value);
    }
    var b := if data.Some? then Buffer(ctx, s, data.value) else Step(ctx, s, Ok(()));
    ReplyKeepsPongs(b.ctx, b.stream);
    var a := SendAdditional(b.ctx, b.stream);
    PongsKeptThen(ctx, b.ctx, a.ctx, None, None);
    var w := WriteInner(ctx, s, data);
    if b.result.Ok? {
      SamePongs(a.ctx, w.ctx, None);
      PongsKeptThen(ctx, a.ctx, w.ctx, None, None);
    }
  }

  lemma FlushKeepsPongs(ctx: Context, s: Stream)
    ensures PongsKept(ctx, Flush(ctx, s).ctx, None)
  {
    hide WriteInner, PongsKept, WriteOut;
    WriteInnerKeepsPongs(ctx, s, None);
    var w := WriteInner(ctx, s, None);
    SamePongs(w.ctx, Flush(ctx, s).ctx, None);
    PongsKeptThen(ctx, w.ctx, Flush(ctx, s).ctx, None, None);
  }

  lemma ShutKeepsPongs(ctx: Context, s: Stream, reason: Option<CloseReason>)
    ensures PongsKept(ctx, Shut(ctx, s, reason).ctx, None)
  {
    hide WriteInner, Flush, PongsKept;
    if ctx.state.Active? {
      var ctx' := ctx.(state := ClosedByUs);
      SamePongs(ctx, ctx', None);
      WriteInnerKeepsPongs(ctx', s, CloseFrame(reason));
      var w := WriteInner(ctx', s, CloseFrame(reason));
      PongsKeptThen(ctx, ctx', w.ctx, None, None);
      FlushKeepsPongs(w.ctx, w.stream);
      PongsKeptThen(ctx, w.ctx, Flush(w.ctx, w.stream).ctx, None, None);
    } else {
      FlushKeepsPongs(ctx, s);
    }
  }

  lemma WriteFrameKeepsPongs(ctx: Context, s: Stream, f: Frame)
    requires !f.Is(PONG)
    ensures PongsKept(ctx, WriteFrame(ctx, s, f).ctx, None)
  {
    hide WriteInner, Flush, PongsKept;
    WriteInnerKeepsPongs(ctx, s, Some(f));
    var w := WriteInner(ctx, s, Some(f));
    FlushKeepsPongs(w.ctx, w.stream);
    PongsKeptThen(ctx, w.ctx, Flush(w.ctx, w.stream).ctx, None, None);
  }

  lemma SetReplyPongs(ctx: Context, f: Frame)
    ensures PongsKept(ctx, SetAdditional(ctx, f), if f.Is(PONG) then Some(f.payload) else None)
  {
  }

  /** The one pong a write may bring. */
  function PongOf(m: Message): Option<Bytes> {
    if m.Pong? then Some(m.data) else None
  }

  lemma WriteKeepsPongs(ctx: Context, s: Stream, m: Message)
    requires !m.Raw?
    ensures PongsKept(ctx, Write(ctx, s, m).ctx, PongOf(m))
  {
    hide WriteInner, WriteFrame, Shut, PongsKept;
    if !ctx.state.Active? {
      SamePongs(ctx, ctx, PongOf(m));
    } else {
      match m
      case Text(data) => WriteFrameKeepsPongs(ctx, s, MessageFrame(data, DataOp.Text, true));
      case Binary(data) => WriteFrameKeepsPongs(ctx, s, MessageFrame(data, DataOp.Binary, true));
      case Ping(data) => WriteFrameKeepsPongs(ctx, s, PingFrame(data));
      case Close(reason) => ShutKeepsPongs(ctx, s, reason);
      case Pong(data) =>
        var c := SetAdditional(ctx, PongFrame(data));
        SetReplyPongs(ctx, PongFrame(data));
        WriteInnerKeepsPongs(c, s, None);
        PongsKeptThen(ctx, c, WriteInner(c, s, None).ctx, Some(data), None);
    }
  }

  // ---------------------------------------------------------------- reading

  /** The one pong a read may bring: that of the ping it returns. */
  function PongFor(r: Result<Option<Message>>): Option<Bytes> {
    if r.Ok? && r.value.Some? && r.value.value.Ping? then Some(r.value.value.data) else None
  }

  lemma ControlKeepsPongs(ctx: Context, f: Frame)
    requires f.header.opcode.Control? && ctx.state.CanRead()
    ensures var h := HandleControl(ctx, f); PongsKept(ctx, h.ctx, PongFor(h.result))
  {
    hide ReadClose, PongsKept, HasPong, BigEndian;
    var h := HandleControl(ctx, f);
    if h.ctx.additional == ctx.additional {
      SamePongs(ctx, h.ctx, PongFor(h.result));
    } else {
      var reply := h.ctx.additional.value;
      SetReplyPongs(ctx, reply);
      SamePongs(SetAdditional(ctx, reply), h.ctx, PongFor(h.result));
      PongsKeptThen(ctx, SetAdditional(ctx, reply), h.ctx, if reply.Is(PONG) then Some(reply.payload) else None, None)
        by { SamePongs(SetAdditional(ctx, reply), h.ctx, None); }
    }
  }

  lemma FrameKeepsPongs(ctx: Context, f: Frame)
    ensures var h := HandleFrame(ctx, f); PongsKept(ctx, h.ctx, PongFor(h.result))
  {
    hide HandleControl, HandleData, PongsKept;
    var h := HandleFrame(ctx, f);
    SamePongs(ctx, ctx, PongFor(h.result));
    if ctx.state.CanRead() && Open(ctx.role, ctx.config.acceptUnmasked, f).Opened? {
      var p := Open(ctx.role, ctx.config.acceptUnmasked, f).frame;
      if p.header.opcode.Control? {
        ControlKeepsPongs(ctx, p);
      } else {
        HandleDataKeeps(ctx, p);
        SamePongs(ctx, h.ctx, PongFor(h.result));
      }
    }
  }

  lemma FrameReadKeepsPongs(ctx: Context, s: Stream)
    ensures var r := ReadMessageFrame(ctx, s); PongsKept(ctx, r.ctx, PongFor(r.result))
  {
    hide ReadFrame, HandleFrame, PongsKept;
    var raw := ReadFrame(ctx.codec, s, ctx.config.FrameLimit());
    var ctx' := ctx.(codec := raw.codec);
    var r := ReadMessageFrame(ctx, s);
    SamePongs(ctx, ctx', None);
    if raw.result.Ok? && raw.result.value.Some? {
      FrameKeepsPongs(ctx', raw.result.value.value);
      PongsKeptThen(ctx, ctx', r.ctx, None, PongFor(r.result));
    } else {
      SamePongs(ctx, r.ctx, PongFor(r.result));
    }
  }

  function Answer(r: Step<Message>): Option<Bytes> {
    if r.result.Ok? && r.result.value.Ping? then Some(r.result.value.data) else None
  }

  lemma {:induction false} ReadLoopKeepsPongs(ctx: Context, s: Stream)
    ensures var r := ReadLoop(ctx, s); PongsKept(ctx, r.ctx, Answer(r))
    decreases Unread(ctx.codec, s)
  {
    hide Flush, ReadMessageFrame, PongsKept;
    var b := BeforeRead(ctx, s);
    FlushKeepsPongs(ctx, s);
    SamePongs(ctx, ctx, None);
    SamePongs(ctx, ctx.(state := Terminated), None);
    if b.result.Ok? {
      var m := ReadMessageFrame(b.ctx, b.stream);
      FrameReadKeepsPongs(b.ctx, b.stream);
      PongsKeptThen(ctx, b.ctx, m.ctx, None, PongFor(m.result));
      ReadProgress(ctx, s);
      if m.result == Ok(None) {
        ReadLoopKeepsPongs(m.ctx, m.stream);
        PongsKeptThen(ctx, m.ctx, ReadLoop(m.ctx, m.stream).ctx, None, Answer(ReadLoop(m.ctx, m.stream)));
      }
    }
  }

  /** A call brings at most one pong. */
  function PongBrought(call: Call, r: Result<Option<Message>>): Option<Bytes> {
    match call
    case ReadCall => PongFor(r)
    case WriteCall(m) => PongOf(m)
    case _ => None
  }

  lemma PerformKeepsPongs(ctx: Context, s: Stream, call: Call)
    requires call.WriteCall? ==> !call.message.Raw?
    ensures var o := Perform(ctx, s, call); PongsKept(ctx, o.ctx, PongBrought(call, o.result))
  {
    hide ReadLoop, Write, Flush, Shut, PongsKept;
    match call
    case ReadCall =>
      ReadLoopKeepsPongs(ctx, s);
      SamePongs(ctx, ctx, None);
    case WriteCall(m) => WriteKeepsPongs(ctx, s, m);
    case FlushCall => FlushKeepsPongs(ctx, s);
    case CloseCall(reason) => ShutKeepsPongs(ctx, s, reason);
  }

  // ---------------------------------------------------------------- conversations

  /** Its pongs answer pings it has heard, or were written by its user. */
  ghost predicate PongsMeant(x: Side) {
    forall data :: HasPong(x.ctx, data) ==> Message.Ping(data) in x.heard || Message.Pong(data) in x.ponged
  }

  lemma MovePongs(x: Side, y: Side, move: Move)
    requires CanMove(x, y, move) && PongsMeant(x)
    ensures PongsMeant(Moved(x, move))
  {
    hide Perform, HasPong, Steady, Deliverable, ShortReason;
    var s, o := StreamOf(x, move), Act(x, move);
    PerformKeepsPongs(x.ctx, s, move.call);
    var x' := Moved(x, move);
    forall data | HasPong(x'.ctx, data)
      ensures Message.Ping(data) in x'.heard || Message.Pong(data) in x'.ponged
    {
      if !HasPong(x.ctx, data) {
        BroughtIsMeant(move, o, data);
      }
    }
  }

  lemma BroughtIsMeant(move: Move, o: Outcome, data: Bytes)
    requires PongBrought(move.call, o.result) == Some(data)
    ensures Message.Ping(data) in HeardOf(o.result) || Message.Pong(data) in PongBy(move)
  {
  }

  lemma {:induction false} TalkPongs(l: Link, turns: seq<Turn>)
    requires CanTalk(l, turns) && PongsMeant(l.left) && PongsMeant(l.right)
    ensures PongsMeant(Talk(l, turns).left) && PongsMeant(Talk(l, turns).right)
    decreases turns
  {
    hide PongsMeant, CanMove, Moved;
    if turns != [] {
      if turns[0].byLeft {
        MovePongs(l.left, l.right, turns[0].move);
      } else {
        MovePongs(l.right, l.left, turns[0].move);
      }
      TalkPongs(Take(l, turns[0]), turns[1..]);
    }
  }

  lemma {:induction false} HeardPongIsSent(frames: seq<Frame>, data: Bytes)
    requires Message.Pong(data) in HeardIn(frames)
    ensures exists f :: f in frames && IsPong(f, data)
  {
    if MessageOf(frames[0]) == Message.Pong(data) {
      assert IsPong(frames[0], data);
    } else {
      HeardPongIsSent(frames[1..], data);
      var f :| f in frames[1..] && IsPong(f, data);
      assert f in frames;
    }
  }

  lemma {:induction false} PingIsSpoken(messages: seq<Message>, m: Message)
    requires m in messages && m.Ping?
    ensures m in Spoken(messages)
  {
    if messages[0] != m {
      PingIsSpoken(messages[1..], m);
    }
  }

  /** Every pong `x` has heard is `y`'s answer to a ping of `x`, or `y`'s user wrote it. */
  ghost predicate PongsAnswer(x: Side, y: Side) {
    forall data | Message.Pong(data) in x.heard :: Message.Ping(data) in x.said || Message.Pong(data) in y.ponged
  }

  lemma SidePongs(x: Side, y: Side)
    requires PongsMeant(y) && Spoken(y.heard) <= x.said && x.heard <= HeardIn(y.ctx.codec.sent)
    ensures PongsAnswer(x, y)
  {
    hide HeardIn, Spoken, IsPong;
    forall data | Message.Pong(data) in x.heard
      ensures Message.Ping(data) in x.said || Message.Pong(data) in y.ponged
    {
      HeardPongIsSent(y.ctx.codec.sent, data);
      assert HasPong(y.ctx, data);
      if Message.Ping(data) in y.heard {
        PingIsSpoken(y.heard, Message.Ping(data));
      }
    }
  }

  /**
   In every conversation, at any time: a pong that a side has heard carries the data of a ping that this side
   has sent, or the other side's user wrote that pong.
   */
  lemma NoPongIsMadeUp(role: Role, config: Config, peerConfig: Config, turns: seq<Turn>)
    requires TakesControls(config) && TakesControls(peerConfig)
    requires CanTalk(NewLink(role, config, peerConfig), turns)
    ensures var l := Talk(NewLink(role, config, peerConfig), turns);
            PongsAnswer(l.left, l.right) && PongsAnswer(l.right, l.left)
  {
    hide Talk, CanTalk, PongsAnswer, HeardIn, Spoken;
    var l := Talk(NewLink(role, config, peerConfig), turns);
    BothHearInOrder(role, config, peerConfig, turns);
    TalkPongs(NewLink(role, config, peerConfig), turns);
    SidePongs(l.left, l.right);
    SidePongs(l.right, l.left);
  }
}
