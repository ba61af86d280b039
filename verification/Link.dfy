/**
 A conversation: two contexts joined both ways, each writing data, pings and pongs, flushing, reading and
 closing in any order, with the bytes of each side handed to the other in any cut
 (`src/adapters/ws/protocol/mod.rs`).
 */
module Links {
  import opened Base
  import opened Coding
  import opened Masking
  import opened Frames
  import opened Streams
  import opened Codecs
  import opened Messages
  import opened Contexts
  import opened Sessions
  import opened Closing
  import opened Ending
  import opened Reading
  import opened EndToEnd

  // ---------------------------------------------------------------- the conversation

  /**
   One side: its context, every byte its stream has taken, how many bytes of the other side's it has been
   handed; and history: the data messages and pings its writes had accepted, the messages its reads returned,
   pings and pongs among them, and the pongs its user wrote.
   */
  datatype Side = Side(ctx: Context, out: Bytes, taken: nat, said: seq<Message>, heard: seq<Message>,
                       ponged: seq<Message>)

  datatype Link = Link(left: Side, right: Side)

  /** A call of one side, and what its stream answers meanwhile. */
  datatype Move = Move(call: Call, incoming: seq<ReadEvent>, writes: seq<WriteEvent>, flushes: seq<FlushEvent>,
                       masks: seq<Mask>)

  /** A close without a reason, or with one that fits a control frame. */
  predicate ShortReason(reason: Option<CloseReason>) {
    reason.Some? ==> 2 + |reason.value.reason| <= 125
  }

  /** Data within the peer's limits, control messages that fit a control frame, flushes, reads and closes. */
  predicate Fair(peer: Config, call: Call) {
    match call
    case ReadCall => true
    case FlushCall => true
    case CloseCall(reason) => ShortReason(reason)
    case WriteCall(m) =>
      if IsData(m) then Deliverable(peer, m)
      else if m.Close? then ShortReason(m.reason)
      else (m.Ping? || m.Pong?) && |m.data| <= 125
  }

  predicate Closes(call: Call) {
    call.CloseCall? || (call.WriteCall? && call.message.Close?)
  }

  /** The stream hands over some of the bytes the other side's stream has taken and this side has not had. */
  predicate CanMove(x: Side, y: Side, move: Move) {
    && Fair(y.ctx.config, move.call) && Steady(move.incoming)
    && x.taken <= |y.out| && Arriving(move.incoming) <= y.out[x.taken..]
  }

  function StreamOf(x: Side, move: Move): Stream {
    Stream(move.incoming, move.writes, move.flushes, move.masks, x.out)
  }

  function Act(x: Side, move: Move): Outcome {
    Perform(x.ctx, StreamOf(x, move), move.call)
  }

  function HandedIn(move: Move, o: Outcome): nat {
    var all, left := |Arriving(move.incoming)|, |Arriving(o.stream.incoming)|;
    if left <= all then all - left else 0
  }

  /** The write was turned away: for want of room, or because the connection is closing or closed. */
  predicate Refused<T>(r: Result<T>) {
    r.Err? && (r.error.WriteBufferFull? || r.error.AlreadyClosed? || r.error.Violation?)
  }

  /** What a user has to say: data and pings.  Pongs answer, and may take each other's place. */
  predicate IsSaid(m: Message) {
    IsData(m) || m.Ping?
  }

  /** What a read returned, but for the Close. */
  function HeardOf(r: Result<Option<Message>>): seq<Message> {
    if r.Ok? && r.value.Some? && !r.value.value.Close? then [r.value.value] else []
  }

  function SaidBy(move: Move, o: Outcome): seq<Message> {
    if move.call.WriteCall? && IsSaid(move.call.message) && !Refused(o.result) then [move.call.message] else []
  }

  function PongBy(move: Move): seq<Message> {
    if move.call.WriteCall? && move.call.message.Pong? then [move.call.message] else []
  }

  function Moved(x: Side, move: Move): Side {
    var o := Act(x, move);
    Side(o.ctx, o.stream.accepted, x.taken + HandedIn(move, o), x.said + SaidBy(move, o), x.heard + HeardOf(o.result),
         x.ponged + PongBy(move))
  }

  datatype Turn = Turn(byLeft: bool, move: Move)

  function Take(l: Link, turn: Turn): Link {
    if turn.byLeft then l.(left := Moved(l.left, turn.move)) else l.(right := Moved(l.right, turn.move))
  }

  predicate CanTake(l: Link, turn: Turn) {
    if turn.byLeft then CanMove(l.left, l.right, turn.move) else CanMove(l.right, l.left, turn.move)
  }

  predicate CanTalk(l: Link, turns: seq<Turn>)
    decreases turns
  {
    turns != [] ==> CanTake(l, turns[0]) && CanTalk(Take(l, turns[0]), turns[1..])
  }

  function Talk(l: Link, turns: seq<Turn>): Link
    decreases turns
  {
    if turns == [] then l else Talk(Take(l, turns[0]), turns[1..])
  }

  function NewSide(role: Role, config: Config): Side {
    Side(NewContext(role, [], config), [], 0, [], [], [])
  }

  function NewLink(role: Role, config: Config, peerConfig: Config): Link {
    Link(NewSide(role, config), NewSide(Peer(role), peerConfig))
  }

  // ---------------------------------------------------------------- the frames of a conversation

  /** The message of a frame that is no Close. */
  function MessageOf(f: Frame): Message {
    if f.Is(Data(DataOp.Text)) then Message.Text(f.payload)
    else if f.Is(PING) then Message.Ping(f.payload)
    else if f.Is(PONG) then Message.Pong(f.payload)
    else Message.Binary(f.payload)
  }

  /** A frame of a conversation, but for its mask. */
  predicate PlainTalk(config: Config, f: Frame) {
    && f.header == DEFAULT_HEADER.(opcode := f.header.opcode, mask := f.header.mask)
    && (if f.header.opcode.Data? then
          f.header.opcode.data in {DataOp.Text, DataOp.Binary} && Deliverable(config, MessageOf(f))
        else
          && f.header.opcode.control in {ControlOp.Ping, ControlOp.Pong, ControlOp.Close}
          && |f.payload| <= 125 && (f.Is(CLOSE) ==> 2 <= |f.payload|))
  }

  /** As a writer of this role sends it to a peer of this configuration. */
  predicate TalkFrame(role: Role, config: Config, f: Frame) {
    PlainTalk(config, f) && (f.header.mask.Some? <==> role.Client?)
  }

  predicate AllTalk(role: Role, config: Config, frames: seq<Frame>) {
    forall i | 0 <= i < |frames| :: TalkFrame(role, config, frames[i])
  }

  function SaidOfFrame(f: Frame): seq<Message> {
    if f.header.opcode.Data? || f.Is(PING) then [MessageOf(f)] else []
  }

  function SaidIn(frames: seq<Frame>): seq<Message> {
    if frames == [] then [] else SaidOfFrame(frames[0]) + SaidIn(frames[1..])
  }

  lemma {:induction false} SaidInAppend(a: seq<Frame>, b: seq<Frame>)
    ensures SaidIn(a + b) == SaidIn(a) + SaidIn(b)
  {
    hide SaidOfFrame;
    if a == [] {
      assert a + b == b;
    } else {
      assert (a + b)[0] == a[0] && (a + b)[1..] == a[1..] + b;
      SaidInAppend(a[1..], b);
    }
  }

  function HeardOfFrame(f: Frame): seq<Message> {
    if f.Is(CLOSE) then [] else [MessageOf(f)]
  }

  /** The messages of these frames, up to a Close. */
  function HeardIn(frames: seq<Frame>): seq<Message> {
    if frames == [] || frames[0].Is(CLOSE) then [] else [MessageOf(frames[0])] + HeardIn(frames[1..])
  }

  lemma {:induction false} HeardInAppend(a: seq<Frame>, b: seq<Frame>)
    ensures HeardIn(a + b) == HeardIn(a) + if NoClose(a) then HeardIn(b) else []
  {
    hide MessageOf;
    if a == [] {
      assert a + b == b;
    } else {
      assert (a + b)[0] == a[0] && (a + b)[1..] == a[1..] + b;
      assert a == [a[0]] + a[1..];
      HeardInAppend(a[1..], b);
    }
  }

  /** All but the pongs. */
  function Spoken(messages: seq<Message>): seq<Message> {
    if messages == [] then []
    else (if IsSaid(messages[0]) then [messages[0]] else []) + Spoken(messages[1..])
  }

  // ---------------------------------------------------------------- writing

  /** No fragmented message; what is pending is a control frame of the conversation. */
  predicate Chatting(ctx: Context, peer: Config) {
    && ctx.incomplete.None?
    && (ctx.additional.Some? ==>
          && PlainTalk(peer, ctx.additional.value) && ctx.additional.value.header.opcode in {PONG, CLOSE}
          && (ctx.role.Server? ==> ctx.additional.value.header.mask.None?))
  }

  /** From `ctx` to `ctx'`, frames of the conversation were accepted, saying this. */
  ghost predicate Speaks(ctx: Context, ctx': Context, peer: Config, data: seq<Message>) {
    && Chatting(ctx', peer) && ctx'.role == ctx.role && ctx'.config == ctx.config
    && exists extra :: ctx'.codec.sent == ctx.codec.sent + extra
         && AllTalk(ctx.role, peer, extra) && SaidIn(extra) == data
  }

  lemma SpeaksNothing(ctx: Context, ctx': Context, peer: Config)
    requires Chatting(ctx', peer) && ctx'.role == ctx.role && ctx'.config == ctx.config
    requires ctx'.codec.sent == ctx.codec.sent
    ensures Speaks(ctx, ctx', peer, [])
  {
    var none: seq<Frame> := [];
    assert ctx'.codec.sent == ctx.codec.sent + none;
    assert AllTalk(ctx.role, peer, none) && SaidIn(none) == [];
  }

  lemma AllTalkAppend(role: Role, peer: Config, a: seq<Frame>, b: seq<Frame>)
    requires AllTalk(role, peer, a) && AllTalk(role, peer, b)
    ensures AllTalk(role, peer, a + b)
  {
    hide TalkFrame;
  }

  lemma SpeaksThen(a: Context, b: Context, c: Context, peer: Config, x: seq<Message>, y: seq<Message>)
    requires Speaks(a, b, peer, x) && Speaks(b, c, peer, y)
    ensures Speaks(a, c, peer, x + y)
  {
    hide Chatting, AllTalk, SaidIn;
    var e :| b.codec.sent == a.codec.sent + e && AllTalk(a.role, peer, e) && SaidIn(e) == x;
    var f :| c.codec.sent == b.codec.sent + f && AllTalk(b.role, peer, f) && SaidIn(f) == y;
    SaidInAppend(e, f);
    assert c.codec.sent == a.codec.sent + (e + f);
    AllTalkAppend(a.role, peer, e, f);
  }

  lemma PreparedTalk(role: Role, s: Stream, f: Frame, peer: Config)
    requires PlainTalk(peer, f) && (role.Server? ==> f.header.mask.None?)
    ensures var f' := Prepared(role, s, f).0;
            TalkFrame(role, peer, f') && f'.header.opcode == f.header.opcode && f'.payload == f.payload
  {
    hide Deliverable;
  }

  /** Buffering a frame of the conversation, unless there is no room. */
  lemma BufferSpeaks(ctx: Context, s: Stream, f: Frame, peer: Config)
    requires Chatting(ctx, peer) && PlainTalk(peer, f) && (ctx.role.Server? ==> f.header.mask.None?)
    ensures var b := Buffer(ctx, s, f);
            Speaks(ctx, b.ctx, peer, if Full(b.result) then [] else SaidOfFrame(f))
  {
    hide Buffer, Prepared, TalkFrame, PlainTalk;
    var b := Buffer(ctx, s, f);
    var f' := Prepared(ctx.role, s, f).0;
    BufferSends(ctx, s, f);
    PreparedTalk(ctx.role, s, f, peer);
    assert Chatting(b.ctx, peer) by { SameChat(ctx, b.ctx, peer); }
    if Full(b.result) {
      SpeaksNothing(ctx, b.ctx, peer);
    } else {
      OneFrame(f', f, ctx.role, peer);
      assert b.ctx.codec.sent == ctx.codec.sent + [f'];
    }
  }

  lemma SameChat(ctx: Context, ctx': Context, peer: Config)
    requires Chatting(ctx, peer) && ctx' == ctx.(codec := ctx'.codec, state := ctx'.state)
    ensures Chatting(ctx', peer)
  {
    hide PlainTalk;
  }

  lemma OneFrame(f': Frame, f: Frame, role: Role, peer: Config)
    requires TalkFrame(role, peer, f') && f'.header.opcode == f.header.opcode && f'.payload == f.payload
    ensures AllTalk(role, peer, [f']) && SaidIn([f']) == SaidOfFrame(f)
  {
    hide TalkFrame;
    assert [f'][1..] == [];
    assert SaidIn([f']) == SaidOfFrame(f') + SaidIn([f'][1..]);
  }

  lemma SendAdditionalSpeaks(ctx: Context, s: Stream, peer: Config)
    requires Chatting(ctx, peer)
    ensures Speaks(ctx, SendAdditional(ctx, s).ctx, peer, [])
  {
    hide Buffer, PlainTalk, Prepared;
    if ctx.additional.None? {
      SpeaksNothing(ctx, ctx, peer);
    } else {
      var f, cleared := ctx.additional.value, ctx.(additional := None);
      BufferSpeaks(cleared, s, f, peer);
      var b := Buffer(cleared, s, f);
      if Full(b.result) {
        BufferFull(cleared, s, f);
        PreparedTalk(ctx.role, s, f, peer);
        PreparedPlainly(ctx.role, s, f);
        TalkIsPlain(ctx.role, peer, Prepared(ctx.role, s, f).0);
        SpeaksNothing(ctx, SendAdditional(ctx, s).ctx, peer);
      }
    }
  }

  lemma TalkIsPlain(role: Role, peer: Config, f: Frame)
    requires TalkFrame(role, peer, f)
    ensures PlainTalk(peer, f)
  {
  }

  lemma WriteInnerSpeaks(ctx: Context, s: Stream, data: Option<Frame>, peer: Config)
    requires Chatting(ctx, peer)
    requires data.Some? ==> PlainTalk(peer, data.value) && data.value.header.mask.None?
    ensures var w := WriteInner(ctx, s, data);
            && (data.None? ==> !Full(w.result))
            && (w.result.Err? ==> w.result.error.Io? || Full(w.result) || IsCleanClose(w.result))
            && Speaks(ctx, w.ctx, peer, if data.None? || Full(w.result) then [] else SaidOfFrame(data.value))
  {
    hide Buffer, SendAdditional, Speaks, PlainTalk, WriteOut;
    var b := if data.Some? then Buffer(ctx, s, data.value) else Step(ctx, s, Ok(()));
    var said := if data.None? || Full(b.result) then [] else SaidOfFrame(data.value);
    if data.Some? {
      BufferSpeaks(ctx, s, data.value, peer);
      BufferFails(ctx, s, data.value);
    } else {
      SpeaksNothing(ctx, ctx, peer);
    }
    SpeaksChats(ctx, b.ctx, peer, said);
    if b.result.Ok? {
      SendAdditionalSpeaks(b.ctx, b.stream, peer);
      SendAdditionalFails(b.ctx, b.stream);
      var a := SendAdditional(b.ctx, b.stream);
      SpeaksThen(ctx, b.ctx, a.ctx, peer, said, []);
      assert said + [] == said;
      SpeaksOn(ctx, a.ctx, WriteInner(ctx, s, data).ctx, peer, said);
    }
  }

  /** Writing out the buffer and a change of state add no frames. */
  lemma SpeaksOn(a: Context, b: Context, c: Context, peer: Config, data: seq<Message>)
    requires Speaks(a, b, peer, data) && c == b.(codec := c.codec, state := c.state) && c.codec.sent == b.codec.sent
    ensures Speaks(a, c, peer, data)
  {
    hide PlainTalk, TalkFrame;
    SameChat(b, c, peer);
  }

  lemma SpeaksChats(ctx: Context, ctx': Context, peer: Config, data: seq<Message>)
    requires Speaks(ctx, ctx', peer, data)
    ensures Chatting(ctx', peer) && ctx'.role == ctx.role && ctx'.config == ctx.config
  {
  }

  lemma BufferFails(ctx: Context, s: Stream, f: Frame)
    ensures var b := Buffer(ctx, s, f).result; b.Err? ==> b.error.Io? || Full(b) || IsCleanClose(b)
  {
    hide FormatFrame, WriteOut;
  }

  lemma SendAdditionalFails(ctx: Context, s: Stream)
    ensures var a := SendAdditional(ctx, s).result; a.Err? ==> a.error.Io? || IsCleanClose(a)
  {
    hide Buffer;
    if ctx.additional.Some? {
      BufferFails(ctx.(additional := None), s, ctx.additional.value);
    }
  }

  lemma FlushSpeaks(ctx: Context, s: Stream, peer: Config)
    requires Chatting(ctx, peer)
    ensures var f := Flush(ctx, s);
            Speaks(ctx, f.ctx, peer, []) && (f.result.Err? ==> f.result.error.Io? || IsCleanClose(f.result))
  {
    hide WriteInner, WriteOut, Speaks;
    WriteInnerSpeaks(ctx, s, None, peer);
    var w := WriteInner(ctx, s, None);
    SpeaksOn(ctx, w.ctx, Flush(ctx, s).ctx, peer, []);
  }

  lemma WriteFrameSpeaks(ctx: Context, s: Stream, f: Frame, peer: Config)
    requires Chatting(ctx, peer) && PlainTalk(peer, f) && f.header.mask.None?
    ensures var w := WriteFrame(ctx, s, f);
            && (Full(w.result) <==> Refused(w.result))
            && Speaks(ctx, w.ctx, peer, if Refused(w.result) then [] else SaidOfFrame(f))
  {
    hide WriteInner, Flush, PlainTalk, Speaks;
    WriteInnerSpeaks(ctx, s, Some(f), peer);
    var w := WriteInner(ctx, s, Some(f));
    SpeaksChats(ctx, w.ctx, peer, if Full(w.result) then [] else SaidOfFrame(f));
    if w.result.Ok? && w.result.value {
      FlushSpeaks(w.ctx, w.stream, peer);
      SpeaksThen(ctx, w.ctx, Flush(w.ctx, w.stream).ctx, peer, SaidOfFrame(f), []);
      assert SaidOfFrame(f) + [] == SaidOfFrame(f);
    }
  }

  lemma ClosePlain(reason: Option<CloseReason>, peer: Config)
    requires ShortReason(reason) && reason.Some?
    ensures var f := CloseFrame(reason); f.Some? && PlainTalk(peer, f.value) && f.value.header.mask.None?
    ensures SaidOfFrame(CloseFrame(reason).value) == []
  {
  }

  lemma ShutSpeaks(ctx: Context, s: Stream, reason: Option<CloseReason>, peer: Config)
    requires Chatting(ctx, peer) && ShortReason(reason)
    ensures Speaks(ctx, Shut(ctx, s, reason).ctx, peer, [])
  {
    hide WriteInner, Flush, PlainTalk, Speaks, TalkFrame;
    if ctx.state.Active? {
      var ctx' := ctx.(state := ClosedByUs);
      SameChat(ctx, ctx', peer);
      SpeaksNothing(ctx, ctx', peer);
      if reason.Some? {
        ClosePlain(reason, peer);
      }
      WriteInnerSpeaks(ctx', s, CloseFrame(reason), peer);
      var w := WriteInner(ctx', s, CloseFrame(reason));
      var none: seq<Message> := [];
      assert none + none == none;
      SpeaksThen(ctx, ctx', w.ctx, peer, none, none);
      if w.result.Ok? {
        SpeaksChats(ctx, w.ctx, peer, none);
        FlushSpeaks(w.ctx, w.stream, peer);
        SpeaksThen(ctx, w.ctx, Flush(w.ctx, w.stream).ctx, peer, none, none);
      }
    } else {
      FlushSpeaks(ctx, s, peer);
    }
  }

  lemma DataFramePlain(m: Message, peer: Config)
    requires IsData(m) && Deliverable(peer, m)
    ensures var f := MessageFrame(m.data, DataOpOf(m), true);
            PlainTalk(peer, f) && f.header.mask.None? && SaidOfFrame(f) == [m]
  {
  }

  lemma ControlFramePlain(data: Bytes, peer: Config)
    requires |data| <= 125
    ensures PlainTalk(peer, PingFrame(data)) && PlainTalk(peer, PongFrame(data))
    ensures PingFrame(data).header.mask.None? && PongFrame(data).header.mask.None?
    ensures SaidOfFrame(PingFrame(data)) == [Message.Ping(data)] && SaidOfFrame(PongFrame(data)) == []
  {
  }

  lemma SetPongChats(ctx: Context, data: Bytes, peer: Config)
    requires Chatting(ctx, peer) && |data| <= 125
    ensures var c := SetAdditional(ctx, PongFrame(data)); Speaks(ctx, c, peer, []) && Chatting(c, peer)
  {
    hide TalkFrame;
    ControlFramePlain(data, peer);
    SpeaksNothing(ctx, SetAdditional(ctx, PongFrame(data)), peer);
  }

  lemma WriteSpeaks(ctx: Context, s: Stream, m: Message, peer: Config)
    requires Chatting(ctx, peer) && Fair(peer, WriteCall(m))
    ensures var w := Write(ctx, s, m);
            Speaks(ctx, w.ctx, peer, if IsSaid(m) && !Refused(w.result) then [m] else [])
  {
    hide WriteInner, WriteFrame, PlainTalk, Speaks, SetAdditional, Deliverable, Shut, ShortReason;
    if !ctx.state.Active? {
      SpeaksNothing(ctx, ctx, peer);
    } else if IsData(m) {
      DataFramePlain(m, peer);
      WriteFrameSpeaks(ctx, s, MessageFrame(m.data, DataOpOf(m), true), peer);
    } else if m.Close? {
      ShutSpeaks(ctx, s, m.reason, peer);
    } else {
      ControlFramePlain(m.data, peer);
      if m.Ping? {
        WriteFrameSpeaks(ctx, s, PingFrame(m.data), peer);
      } else {
        SetPongChats(ctx, m.data, peer);
        var c := SetAdditional(ctx, PongFrame(m.data));
        WriteInnerSpeaks(c, s, None, peer);
        var none: seq<Message> := [];
        SpeaksThen(ctx, c, WriteInner(c, s, None).ctx, peer, none, none);
        assert none + none == none;
      }
    }
  }

  // ---------------------------------------------------------------- reading

  predicate TakesControls(config: Config) {
    config.FrameLimit() >= 125
  }

  /** How a frame that was taken in is answered: before the peer's close it is heard, after it refused. */
  predicate Heard(before: State, r: Result<Option<Message>>, after: State, f: Frame) {
    if before.CanRead() then
      && r.Ok? && r.value.Some? && HeardOf(r) == HeardOfFrame(f)
      && (if f.Is(CLOSE) then !after.CanRead() else after == before)
    else r.Err? && !after.CanRead()
  }

  lemma UnmaskedTalk(role: Role, config: Config, f: Frame)
    requires TalkFrame(role, config, f)
    ensures ApplyMask(OnTheWire(f)) == f.(header := f.header.(mask := None))
    ensures OnTheWire(f).header == f.header
    ensures f.(header := f.header.(mask := None)) == Frame(DEFAULT_HEADER.(opcode := f.header.opcode), f.payload)
  {
    hide Masked, Deliverable;
    UnmaskOnTheWire(f);
  }

  /** What `Open` makes of a frame of the conversation. */
  lemma TalkOpens(ctx: Context, f: Frame)
    requires ctx.state.CanRead() && TalkFrame(Peer(ctx.role), ctx.config, f) && f.header.opcode.Control?
    ensures HandleFrame(ctx, OnTheWire(f))
         == HandleControl(ctx, Frame(DEFAULT_HEADER.(opcode := f.header.opcode), f.payload))
  {
    hide Masked, HandleControl, Deliverable, ApplyMask, OnTheWire;
    UnmaskedTalk(Peer(ctx.role), ctx.config, f);
    if f.header.mask.None? {
      UnmaskedAsIs(f);
    }
  }

  lemma UnmaskedAsIs(f: Frame)
    requires f.header.mask.None?
    ensures OnTheWire(f) == f && f.(header := f.header.(mask := None)) == f
  {
  }

  lemma ReadsReason(payload: Bytes)
    requires 2 <= |payload| <= 125
    ensures ReadClose(payload).Reason? && |ReadClose(payload).reason.reason| <= 123
  {
    hide CloseCodeOf;
  }

  /** Closing, for either side: past the peer's close, with a reply of the conversation or none. */
  lemma DoCloseSpeaks(ctx: Context, r: CloseReason, peer: Config)
    requires ctx.state.CanRead() && Chatting(ctx, peer) && |r.reason| <= 123
    ensures var d := DoClose(ctx, Some(r));
            && d.0.codec == ctx.codec && !d.0.state.CanRead() && Speaks(ctx, d.0, peer, [])
            && d.1.Some? && d.1.value.Close?
  {
    hide TalkFrame;
    var d := DoClose(ctx, Some(r));
    var echoed := if r.code.IsAllowed() then r else CloseReason(CloseCode.Protocol, PROTOCOL_VIOLATION);
    assert |PROTOCOL_VIOLATION| == 18;
    ClosePlain(Some(echoed), peer);
    assert Chatting(d.0, peer);
    SpeaksNothing(ctx, d.0, peer);
  }

  lemma ControlHandled(ctx: Context, f: Frame, peer: Config)
    requires ctx.state.CanRead() && Chatting(ctx, peer)
    requires f.header.fin && |f.payload| <= 125 && f.header.opcode.Control?
    requires f.header.opcode.control in {ControlOp.Ping, ControlOp.Pong, ControlOp.Close}
    requires f.Is(CLOSE) ==> 2 <= |f.payload|
    ensures var h := HandleControl(ctx, f);
            && h.ctx.codec == ctx.codec && Speaks(ctx, h.ctx, peer, [])
            && Heard(ctx.state, h.result, h.ctx.state, f)
  {
    hide Speaks, SetAdditional, DoClose, ReadClose, Chatting;
    if f.Is(CLOSE) {
      ReadsReason(f.payload);
      DoCloseSpeaks(ctx, ReadClose(f.payload).reason, peer);
    } else {
      SpeaksNothing(ctx, ctx, peer);
      SetPongChats(ctx, f.payload, peer);
      SetAdditionalKeepsCodec(ctx, PongFrame(f.payload));
    }
  }

  lemma DataHandled(ctx: Context, f: Frame)
    requires ctx.state.CanRead() && ctx.incomplete.None?
    requires TalkFrame(Peer(ctx.role), ctx.config, f) && f.header.opcode.Data?
    ensures HandleFrame(ctx, OnTheWire(f)) == Handled(ctx, Ok(Some(MessageOf(f))))
    ensures HeardOf(Ok(Some(MessageOf(f)))) == HeardOfFrame(f)
  {
    hide HandleFrame, OnTheWire;
    CarriedHandled(ctx, f, MessageOf(f));
  }

  lemma TalkFits(config: Config, role: Role, f: Frame)
    requires TalkFrame(role, config, f) && TakesControls(config)
    ensures Fits(f, config.FrameLimit())
  {
  }

  /** A frame of the conversation, off the wire. */
  lemma TalkHandled(ctx: Context, f: Frame, peer: Config)
    requires Chatting(ctx, peer) && TalkFrame(Peer(ctx.role), ctx.config, f)
    ensures var h := HandleFrame(ctx, OnTheWire(f));
            && h.ctx.codec == ctx.codec && Speaks(ctx, h.ctx, peer, [])
            && Heard(ctx.state, h.result, h.ctx.state, f)
  {
    hide OnTheWire, Speaks, HandleControl, HandleData, Deliverable, ApplyMask;
    if !ctx.state.CanRead() {
      SpeaksNothing(ctx, ctx, peer);
    } else if f.header.opcode.Data? {
      DataHandled(ctx, f);
      SpeaksNothing(ctx, ctx, peer);
    } else {
      TalkOpens(ctx, f);
      var plain := Frame(DEFAULT_HEADER.(opcode := f.header.opcode), f.payload);
      ControlHandled(ctx, plain, peer);
      assert HeardOfFrame(plain) == HeardOfFrame(f);
    }
  }

  lemma SetAdditionalKeepsCodec(ctx: Context, f: Frame)
    ensures SetAdditional(ctx, f).codec == ctx.codec && SetAdditional(ctx, f).state == ctx.state
  {
  }

  /** Before the frame: replies are pushed out, or a server ends. */
  lemma BeforeReadSpeaks(ctx: Context, s: Stream, peer: Config)
    requires Chatting(ctx, peer)
    ensures var b := BeforeRead(ctx, s);
            && Speaks(ctx, b.ctx, peer, [])
            && (b.result.Ok? ==> b.ctx.state == ctx.state)
            && (b.result.Err? ==>
                  && b.result != Err(Io(WouldBlock)) && (ctx.state.CanRead() ==> b.result.error.Io?)
                  && (b.ctx.state == ctx.state || (!ctx.state.CanRead() && !b.ctx.state.CanRead())))
  {
    hide Flush, Speaks, PlainTalk, TalkFrame;
    FlushSpeaks(ctx, s, peer);
    FlushEnding(ctx, s);
    SpeaksNothing(ctx, ctx, peer);
    SameChat(ctx, ctx.(state := Terminated), peer);
    SpeaksNothing(ctx, ctx.(state := Terminated), peer);
  }

  lemma CodecSpeaks(ctx: Context, c: Codec, peer: Config)
    requires Chatting(ctx, peer) && c.sent == ctx.codec.sent
    ensures Chatting(ctx.(codec := c), peer) && Speaks(ctx, ctx.(codec := c), peer, [])
  {
    hide PlainTalk, TalkFrame;
    SameChat(ctx, ctx.(codec := c), peer);
    SpeaksNothing(ctx, ctx.(codec := c), peer);
  }

  /** What one frame read does. */
  lemma FrameHeard(ctx: Context, s: Stream, missing: Bytes, frames: seq<Frame>, peer: Config)
    requires Chatting(ctx, peer) && TakesControls(ctx.config)
    requires At(ctx.codec, s, missing, frames) && AllTalk(Peer(ctx.role), ctx.config, frames)
    ensures var r := ReadMessageFrame(ctx, s);
            && Speaks(ctx, r.ctx, peer, [])
            && (|| (&& r.result == Err(Io(WouldBlock)) && At(r.ctx.codec, r.stream, missing, frames)
                    && r.ctx.state == ctx.state && (Exhausted(r.stream, missing) ==> frames == []))
                || (&& frames != [] && Heard(ctx.state, r.result, r.ctx.state, frames[0])
                    && r.result != Err(Io(WouldBlock)) && r.result != Ok(None)
                    && At(r.ctx.codec, r.stream, missing, frames[1..])))
  {
    hide ReadFrame, HandleFrame, At, Speaks, OnTheWire, Fits, TalkFrame, HeardOfFrame;
    if frames != [] {
      assert TalkFrame(Peer(ctx.role), ctx.config, frames[0]);
      TalkFits(ctx.config, Peer(ctx.role), frames[0]);
    }
    var raw := ReadFrame(ctx.codec, s, ctx.config.FrameLimit());
    ReadFrameOnWire(ctx.codec, s, missing, frames, ctx.config.FrameLimit());
    CodecSpeaks(ctx, raw.codec, peer);
    if raw.result.Ok? {
      var ctx' := ctx.(codec := raw.codec);
      TalkHandled(ctx', frames[0], peer);
      var none: seq<Message> := [];
      SpeaksThen(ctx, ctx', HandleFrame(ctx', OnTheWire(frames[0])).ctx, peer, none, none);
      assert none + none == none;
    }
  }

  /** Nothing was taken in: nothing yet, or the stream failed to take a reply, or the connection has ended. */
  ghost predicate NotHeard(before: State, r: Result<Option<Message>>, after: State) {
    && r.Err? && (before.CanRead() ==> r.error.Io?)
    && (after == before || (!before.CanRead() && !after.CanRead()))
  }

  /** A read that took no frame in, and found none to take if it would block with no byte to come. */
  ghost predicate Unheard(ctx: Context, r: Step<Message>, missing: Bytes, frames: seq<Frame>) {
    && NotHeard(ctx.state, ReadResult(r), r.ctx.state) && At(r.ctx.codec, r.stream, missing, frames)
    && (r.result == Err(Io(WouldBlock)) && Exhausted(r.stream, missing) ==> frames == [])
  }

  /** One read: the next frame, heard or refused; or nothing. */
  lemma ReadHears(ctx: Context, s: Stream, missing: Bytes, frames: seq<Frame>, peer: Config)
    requires Chatting(ctx, peer) && TakesControls(ctx.config)
    requires At(ctx.codec, s, missing, frames) && AllTalk(Peer(ctx.role), ctx.config, frames)
    ensures var r := Read(ctx, s);
            && Speaks(ctx, r.ctx, peer, [])
            && (|| Unheard(ctx, r, missing, frames)
                || (&& frames != [] && Heard(ctx.state, ReadResult(r), r.ctx.state, frames[0])
                    && r.result != Err(Io(WouldBlock))
                    && At(r.ctx.codec, r.stream, missing, frames[1..])))
  {
    hide Flush, ReadMessageFrame, BeforeRead, Speaks, AllTalk, HeardOfFrame, HeardOf, Wire, Steady;
    if ctx.state.Terminated? {
      SpeaksNothing(ctx, ctx, peer);
    } else {
      BeforeReadSpeaks(ctx, s, peer);
      var b := BeforeRead(ctx, s);
      SpeaksChats(ctx, b.ctx, peer, []);
      if b.result.Ok? {
        FrameHeard(b.ctx, b.stream, missing, frames, peer);
        var none: seq<Message> := [];
        SpeaksThen(ctx, b.ctx, ReadMessageFrame(b.ctx, b.stream).ctx, peer, none, none);
        assert none + none == none;
      }
    }
  }

  // ---------------------------------------------------------------- both sides

  /** A side keeps to the conversation: its frames carry what it said, and its stream and buffer hold them. */
  ghost predicate Talks(x: Side, peer: Config) {
    && Chatting(x.ctx, peer) && TakesControls(x.ctx.config)
    && x.out + x.ctx.codec.output == Formats(x.ctx.codec.sent)
    && |x.ctx.codec.output| <= x.ctx.codec.maxOutput
    && AllTalk(x.ctx.role, peer, x.ctx.codec.sent)
    && x.said == SaidIn(x.ctx.codec.sent)
    && Disciplined(x.ctx)
  }

  /**
   It has taken in the first `r` frames of the other, heard their messages, and stands before the next; it is past
   the other's Close exactly when that is among them.
   */
  ghost predicate Hears(x: Side, y: Side, r: nat) {
    && r <= |y.ctx.codec.sent| && x.taken <= |y.out|
    && Wire(x.ctx.codec.announced, x.ctx.codec.input + (y.out[x.taken..] + y.ctx.codec.output), y.ctx.codec.sent[r..])
    && x.heard == HeardIn(y.ctx.codec.sent[..r])
    && (x.ctx.state.CanRead() <==> NoClose(y.ctx.codec.sent[..r]))
  }

  ghost predicate InConversation(x: Side, y: Side) {
    && x.ctx.role == Peer(y.ctx.role)
    && Talks(x, y.ctx.config) && Talks(y, x.ctx.config)
    && (exists r: nat :: Hears(x, y, r)) && (exists r: nat :: Hears(y, x, r))
  }

  // ---- the mover's own frames

  lemma PerformKeepsAccounts(x: Side, move: Move)
    requires x.out + x.ctx.codec.output == Formats(x.ctx.codec.sent) && |x.ctx.codec.output| <= x.ctx.codec.maxOutput
    ensures var o := Act(x, move);
            && o.stream.accepted + o.ctx.codec.output == Formats(o.ctx.codec.sent)
            && |o.ctx.codec.output| <= o.ctx.codec.maxOutput
  {
    hide Perform;
    var s := StreamOf(x, move);
    assert [] + Formats(x.ctx.codec.sent) == Formats(x.ctx.codec.sent);
    assert Accounts([], x.ctx, s);
    SessionConservesOutput([], x.ctx, s, [move.call]);
    var o := Act(x, move);
    assert Play(x.ctx, s, [move.call]).ctx == o.ctx && Play(x.ctx, s, [move.call]).stream == o.stream by {
      assert [move.call][1..] == [];
    }
    assert [] + Formats(o.ctx.codec.sent) == Formats(o.ctx.codec.sent);
  }

  lemma PerformGrows(ctx: Context, s: Stream, call: Call)
    ensures |s.accepted| <= |Perform(ctx, s, call).stream.accepted|
    ensures !call.ReadCall? ==>
              var o := Perform(ctx, s, call);
              && o.ctx.codec.input == ctx.codec.input && o.ctx.codec.announced == ctx.codec.announced
              && o.stream.incoming == s.incoming && HeardOf(o.result) == []
  {
    hide ReadLoop, Write, Flush, Shut;
  }

  lemma PerformSpeaks(ctx: Context, s: Stream, call: Call, peer: Config)
    requires Chatting(ctx, peer) && Fair(peer, call) && !call.ReadCall?
    ensures var o := Perform(ctx, s, call);
            var said := call.WriteCall? && IsSaid(call.message) && !Refused(o.result);
            Speaks(ctx, o.ctx, peer, if said then [call.message] else [])
  {
    hide Write, Flush, Shut, Speaks, ShortReason;
    match call
    case WriteCall(m) => WriteSpeaks(ctx, s, m, peer);
    case FlushCall => FlushSpeaks(ctx, s, peer);
    case CloseCall(reason) => ShutSpeaks(ctx, s, reason, peer);
  }

  /** Only reading takes a connection past the peer's close; only closing takes it out of `Active` before. */
  lemma PerformState(ctx: Context, s: Stream, call: Call)
    requires !call.ReadCall?
    ensures var o := Perform(ctx, s, call);
            && (o.ctx.state.CanRead() <==> ctx.state.CanRead())
            && (ctx.state.Active? && !Closes(call) ==> o.ctx.state.Active?)
  {
    hide Write, Flush, Shut;
    match call
    case WriteCall(m) => WriteState(ctx, s, m);
    case FlushCall => FlushEnding(ctx, s);
    case CloseCall(reason) => ShutState(ctx, s, reason);
  }

  lemma ShutState(ctx: Context, s: Stream, reason: Option<CloseReason>)
    ensures Shut(ctx, s, reason).ctx.state.CanRead() <==> ctx.state.CanRead()
  {
    hide WriteInner, Flush;
    var ctx' := ctx.(state := ClosedByUs);
    WriteInnerEnding(ctx', s, CloseFrame(reason));
    var w := WriteInner(ctx', s, CloseFrame(reason));
    FlushEnding(w.ctx, w.stream);
    FlushEnding(ctx, s);
  }

  lemma WriteFrameState(ctx: Context, s: Stream, f: Frame)
    requires ctx.state.Active?
    ensures WriteFrame(ctx, s, f).ctx.state.Active?
  {
    hide WriteInner, Flush;
    WriteInnerEnding(ctx, s, Some(f));
    var w := WriteInner(ctx, s, Some(f));
    FlushEnding(w.ctx, w.stream);
  }

  lemma WriteState(ctx: Context, s: Stream, m: Message)
    ensures var w := Write(ctx, s, m).ctx;
            && (w.state.CanRead() <==> ctx.state.CanRead())
            && (ctx.state.Active? && !m.Close? ==> w.state.Active?)
  {
    hide WriteInner, WriteFrame, Shut;
    if ctx.state.Active? {
      match m
      case Text(data) => WriteFrameState(ctx, s, MessageFrame(data, DataOp.Text, true));
      case Binary(data) => WriteFrameState(ctx, s, MessageFrame(data, DataOp.Binary, true));
      case Ping(data) => WriteFrameState(ctx, s, PingFrame(data));
      case Pong(data) => WriteInnerEnding(SetAdditional(ctx, PongFrame(data)), s, None);
      case Close(reason) => ShutState(ctx, s, reason);
      case Raw(f) => WriteFrameState(ctx, s, f);
    }
  }

  lemma PerformDisciplined(ctx: Context, s: Stream, call: Call, peer: Config)
    requires Disciplined(ctx) && Fair(peer, call)
    ensures Disciplined(Perform(ctx, s, call).ctx)
  {
    hide Perform, Disciplined, Deliverable;
    SessionDisciplined(ctx, s, [call]);
    assert [call][1..] == [];
  }

  /** What a side has accepted since is part of the conversation, and carries what it said. */
  lemma SpokenTalks(x: Side, x': Side, peer: Config, data: seq<Message>) returns (extra: seq<Frame>)
    requires Talks(x, peer) && Speaks(x.ctx, x'.ctx, peer, data) && x'.said == x.said + data
    requires x'.out + x'.ctx.codec.output == Formats(x'.ctx.codec.sent)
    requires |x'.ctx.codec.output| <= x'.ctx.codec.maxOutput && Disciplined(x'.ctx)
    ensures Talks(x', peer) && x'.ctx.codec.sent == x.ctx.codec.sent + extra
  {
    hide Chatting, TalkFrame, Formats, Disciplined;
    extra :| x'.ctx.codec.sent == x.ctx.codec.sent + extra && AllTalk(x.ctx.role, peer, extra) && SaidIn(extra) == data;
    SaidInAppend(x.ctx.codec.sent, extra);
    assert x'.ctx.config == x.ctx.config;
  }

  // ---- what the other side has yet to read

  lemma WireAppend(announced: Option<Announced>, bytes: Bytes, frames: seq<Frame>, more: seq<Frame>)
    requires Wire(announced, bytes, frames)
    ensures Wire(announced, bytes + Formats(more), frames + more)
  {
    hide Formats, OnTheWire;
    if announced.None? {
      FormatsAppend(frames, more);
    } else {
      FormatsAppend(frames[1..], more);
      assert (frames + more)[1..] == frames[1..] + more;
      Reassociate(OnTheWire(frames[0]).payload, Formats(frames[1..]), Formats(more));
    }
  }

  lemma Behind(out: Bytes, output: Bytes, taken: nat, all: Bytes)
    requires taken <= |out| && out + output == all
    ensures out[taken..] + output == all[taken..]
  {
  }

  lemma TailAppend(a: Bytes, b: Bytes, k: nat)
    requires k <= |a|
    ensures (a + b)[k..] == a[k..] + b
  {
  }

  /** Whatever the other side adds, a side's place is the same. */
  lemma StillHears(y: Side, x: Side, x': Side, extra: seq<Frame>, r: nat)
    requires Hears(y, x, r) && |x.out| <= |x'.out|
    requires x.out + x.ctx.codec.output == Formats(x.ctx.codec.sent)
    requires x'.out + x'.ctx.codec.output == Formats(x'.ctx.codec.sent)
    requires x'.ctx.codec.sent == x.ctx.codec.sent + extra
    ensures Hears(y, x', r)
  {
    hide Wire, Formats, HeardIn, NoClose;
    var c, c' := x.ctx.codec, x'.ctx.codec;
    Behind(x.out, c.output, y.taken, Formats(c.sent));
    Behind(x'.out, c'.output, y.taken, Formats(c'.sent));
    FormatsAppend(c.sent, extra);
    TailAppend(Formats(c.sent), Formats(extra), y.taken);
    Reassociate(y.ctx.codec.input, Formats(c.sent)[y.taken..], Formats(extra));
    WireAppend(y.ctx.codec.announced, y.ctx.codec.input + (x.out[y.taken..] + c.output), c.sent[r..], extra);
    assert c'.sent[r..] == c.sent[r..] + extra && c'.sent[..r] == c.sent[..r];
  }

  // ---- what the mover reads

  lemma {:induction false} ArrivingAppend(a: seq<ReadEvent>, b: seq<ReadEvent>)
    ensures Arriving(a + b) == Arriving(a) + Arriving(b)
  {
    if a == [] {
      assert a + b == b;
    } else {
      assert (a + b)[0] == a[0] && (a + b)[1..] == a[1..] + b;
      ArrivingAppend(a[1..], b);
    }
  }

  /** Reading takes events off the front. */
  ghost predicate RestOf(rest: seq<ReadEvent>, incoming: seq<ReadEvent>) {
    |rest| <= |incoming| && rest == incoming[|incoming| - |rest|..]
  }

  lemma RestOfRest(a: seq<ReadEvent>, b: seq<ReadEvent>, c: seq<ReadEvent>)
    requires RestOf(b, a) && RestOf(c, b)
    ensures RestOf(c, a)
  {
  }

  lemma {:induction false} ReadFrameTakes(c: Codec, s: Stream, maxSize: nat)
    ensures RestOf(ReadFrame(c, s, maxSize).stream.incoming, s.incoming)
    decreases |s.incoming|
  {
    hide TakeFrame;
    var t := TakeFrame(c, maxSize);
    if t.Short? && s.incoming != [] && s.incoming[0].Chunk? && s.incoming[0].data != [] {
      ReadFrameTakes(t.codec.(input := t.codec.input + s.incoming[0].data), s.(incoming := s.incoming[1..]), maxSize);
    }
  }

  lemma {:induction false} ReadLoopTakes(ctx: Context, s: Stream)
    ensures RestOf(ReadLoop(ctx, s).stream.incoming, s.incoming)
    decreases Unread(ctx.codec, s)
  {
    hide Flush, ReadFrame, HandleFrame, RestOf;
    assert RestOf(s.incoming, s.incoming) by { RestOfItself(s.incoming); }
    var b := BeforeRead(ctx, s);
    if b.result.Ok? {
      ReadFrameTakes(b.ctx.codec, b.stream, b.ctx.config.FrameLimit());
      var r := ReadMessageFrame(b.ctx, b.stream);
      ReadProgress(ctx, s);
      if r.result == Ok(None) {
        ReadLoopTakes(r.ctx, r.stream);
        RestOfRest(s.incoming, r.stream.incoming, ReadLoop(r.ctx, r.stream).stream.incoming);
      }
    }
  }

  lemma RestOfItself(incoming: seq<ReadEvent>)
    ensures RestOf(incoming, incoming)
  {
  }

  lemma RestArrives(rest: seq<ReadEvent>, incoming: seq<ReadEvent>)
    requires RestOf(rest, incoming)
    ensures |Arriving(rest)| <= |Arriving(incoming)|
    ensures Arriving(rest) == Arriving(incoming)[|Arriving(incoming)| - |Arriving(rest)|..]
  {
    var i := |incoming| - |rest|;
    assert incoming[..i] + rest == incoming;
    ArrivingAppend(incoming[..i], rest);
  }

  /** What the other side's stream and buffer still hold behind the bytes of a move. */
  function Missing(x: Side, y: Side, move: Move): Bytes
    requires CanMove(x, y, move)
  {
    y.out[x.taken..][|Arriving(move.incoming)|..] + y.ctx.codec.output
  }

  lemma PlaceBefore(x: Side, y: Side, move: Move, r: nat)
    requires CanMove(x, y, move) && Hears(x, y, r)
    ensures At(x.ctx.codec, StreamOf(x, move), Missing(x, y, move), y.ctx.codec.sent[r..])
  {
    hide Wire, Steady, HeardIn;
    var arriving, left := Arriving(move.incoming), y.out[x.taken..];
    assert left == arriving + left[|arriving|..];
    Reassociate(arriving, left[|arriving|..], y.ctx.codec.output);
  }

  /** Where a move leaves the mover in the bytes of the other side. */
  lemma PlaceAfter(x: Side, y: Side, move: Move, x': Side, rest: seq<ReadEvent>, frames: seq<Frame>)
    requires CanMove(x, y, move) && RestOf(rest, move.incoming)
    requires x'.taken == x.taken + (|Arriving(move.incoming)| - |Arriving(rest)|)
    requires Wire(x'.ctx.codec.announced, x'.ctx.codec.input + (Arriving(rest) + Missing(x, y, move)), frames)
    ensures x'.taken <= |y.out|
    ensures Wire(x'.ctx.codec.announced, x'.ctx.codec.input + (y.out[x'.taken..] + y.ctx.codec.output), frames)
  {
    hide Wire, Steady, Fair;
    RestArrives(rest, move.incoming);
    var arriving, left := Arriving(move.incoming), y.out[x.taken..];
    var k := |arriving| - |Arriving(rest)|;
    assert left == arriving + left[|arriving|..];
    TailAppend(arriving, left[|arriving|..], k);
    assert y.out[x'.taken..] == left[k..];
    Reassociate(Arriving(rest), left[|arriving|..], y.ctx.codec.output);
  }

  lemma HeardInOneMore(frames: seq<Frame>, r: nat)
    requires r < |frames|
    ensures frames[r..][0] == frames[r] && frames[r..][1..] == frames[r + 1..]
    ensures HeardIn(frames[..r + 1])
         == HeardIn(frames[..r]) + if NoClose(frames[..r]) then HeardOfFrame(frames[r]) else []
  {
    hide MessageOf, NoClose;
    assert frames[..r + 1] == frames[..r] + [frames[r]];
    HeardInAppend(frames[..r], [frames[r]]);
    assert [frames[r]][1..] == [];
    assert HeardIn([frames[r]]) == HeardOfFrame(frames[r]);
  }

  lemma NoCloseOneMore(frames: seq<Frame>, r: nat)
    requires r < |frames|
    ensures NoClose(frames[..r + 1]) <==> NoClose(frames[..r]) && !frames[r].Is(CLOSE)
  {
    assert frames[..r + 1] == frames[..r] + [frames[r]];
  }

  /** Behind a Close there are only pongs. */
  predicate PongsBehindClose(frames: seq<Frame>) {
    forall i, j | 0 <= i < j < |frames| && frames[i].Is(CLOSE) :: frames[j].Is(PONG)
  }

  predicate TalkOps(frames: seq<Frame>) {
    forall i | 0 <= i < |frames| :: frames[i].header.opcode.Data? || frames[i].header.opcode in {PING, PONG, CLOSE}
  }

  lemma {:induction false} PongsSayNothing(frames: seq<Frame>)
    requires forall i | 0 <= i < |frames| :: frames[i].Is(PONG)
    ensures SaidIn(frames) == []
  {
    if frames != [] {
      PongsSayNothing(frames[1..]);
    }
  }

  lemma {:induction false} SpokenIsSaid(frames: seq<Frame>)
    requires PongsBehindClose(frames) && TalkOps(frames)
    ensures Spoken(HeardIn(frames)) == SaidIn(frames)
  {
    if frames != [] {
      var f, rest := frames[0], frames[1..];
      if f.Is(CLOSE) {
        PongsSayNothing(rest);
      } else {
        SpokenIsSaid(rest);
        var heard := HeardIn(frames);
        assert heard[0] == MessageOf(f) && heard[1..] == HeardIn(rest);
        SaidIffSpoken(f);
        hide MessageOf, IsSaid;
      }
    }
  }

  lemma SaidIffSpoken(f: Frame)
    requires f.header.opcode.Data? || f.header.opcode in {PING, PONG}
    ensures SaidOfFrame(f) == if IsSaid(MessageOf(f)) then [MessageOf(f)] else []
  {
  }

  /** What a side has said is what its frames say. */
  lemma SideSaid(x: Side, peer: Config)
    requires Talks(x, peer)
    ensures Spoken(HeardIn(x.ctx.codec.sent)) == x.said
  {
    hide Disciplined, Deliverable, Spoken, HeardIn, SaidIn, Formats, Chatting;
    ShapeOfSent(x.ctx);
    SpokenIsSaid(x.ctx.codec.sent);
  }

  lemma SpokenOfPrefix(a: seq<Message>, b: seq<Message>)
    requires a <= b
    ensures Spoken(a) <= Spoken(b)
    decreases a
  {
    hide IsSaid;
    if a != [] {
      SpokenOfPrefix(a[1..], b[1..]);
    }
  }

  lemma AllTalkTail(role: Role, config: Config, frames: seq<Frame>, r: nat)
    requires AllTalk(role, config, frames) && r <= |frames|
    ensures AllTalk(role, config, frames[r..])
  {
    hide TalkFrame;
  }

  /** Nothing of what the other side has let go is left to hear. */
  predicate AllTakenIn(x: Side, y: Side) {
    x.taken == |y.out| && y.ctx.codec.output == []
  }

  /** One more frame taken in. */
  lemma HeardMore(x: Side, y: Side, x': Side, r: nat, result: Result<Option<Message>>)
    requires r < |y.ctx.codec.sent|
    requires x.heard == HeardIn(y.ctx.codec.sent[..r]) && (x.ctx.state.CanRead() <==> NoClose(y.ctx.codec.sent[..r]))
    requires Heard(x.ctx.state, result, x'.ctx.state, y.ctx.codec.sent[r]) && x'.heard == x.heard + HeardOf(result)
    ensures x'.heard == HeardIn(y.ctx.codec.sent[..r + 1])
    ensures x'.ctx.state.CanRead() <==> NoClose(y.ctx.codec.sent[..r + 1])
  {
    hide NoClose, HeardIn, HeardOfFrame;
    HeardInOneMore(y.ctx.codec.sent, r);
    NoCloseOneMore(y.ctx.codec.sent, r);
  }

  /** What a read of the mover brings about. */
  ghost predicate ReadsOn(x: Side, y: Side, x': Side, result: Result<Option<Message>>) {
    && (x.ctx.state.CanRead() && result.Err? ==> result.error.Io?)
    && (x.ctx.state.Active? && y.ctx.state.Active? ==> x'.ctx.state.Active?)
    && (result == Err(Io(WouldBlock)) && AllTakenIn(x', y) ==>
          x'.heard == HeardIn(y.ctx.codec.sent) && (x'.ctx.state.CanRead() <==> NoClose(y.ctx.codec.sent)))
  }

  lemma ActiveSentNoClose(ctx: Context, r: nat)
    requires Disciplined(ctx) && ctx.state.Active? && r <= |ctx.codec.sent|
    ensures NoClose(ctx.codec.sent[..r])
  {
    assert forall f | f in ctx.codec.sent[..r] :: f in ctx.codec.sent;
  }

  /** The frames of the mover, whatever a read took in. */
  lemma ReadTalks(x: Side, y: Side, move: Move) returns (extra: seq<Frame>)
    requires move.call.ReadCall? && Talks(x, y.ctx.config)
    requires Speaks(x.ctx, Read(x.ctx, StreamOf(x, move)).ctx, y.ctx.config, [])
    ensures var x' := Moved(x, move);
            && Talks(x', y.ctx.config) && x'.ctx.codec.sent == x.ctx.codec.sent + extra
            && |x.out| <= |x'.out| && x'.ctx.role == x.ctx.role && x'.ctx.config == x.ctx.config
  {
    hide Read, Speaks, Chatting, Disciplined, Formats, HeardIn, AllTalk;
    var s, x' := StreamOf(x, move), Moved(x, move);
    SpeaksChats(x.ctx, x'.ctx, y.ctx.config, []);
    PerformKeepsAccounts(x, move);
    PerformGrows(x.ctx, s, move.call);
    PerformDisciplined(x.ctx, s, move.call, y.ctx.config);
    assert x.said + [] == x.said;
    extra := SpokenTalks(x, x', y.ctx.config, []);
  }

  /** A read of the mover. */
  lemma ReadMove(x: Side, y: Side, move: Move, r: nat) returns (r': nat, extra: seq<Frame>)
    requires CanMove(x, y, move) && move.call.ReadCall? && x.ctx.role == Peer(y.ctx.role)
    requires Talks(x, y.ctx.config) && Talks(y, x.ctx.config) && Hears(x, y, r)
    ensures var x' := Moved(x, move);
            && Talks(x', y.ctx.config) && x'.ctx.codec.sent == x.ctx.codec.sent + extra
            && Hears(x', y, r')
            && |x.out| <= |x'.out| && x'.ctx.role == x.ctx.role && x'.ctx.config == x.ctx.config
            && ReadsOn(x, y, x', Act(x, move).result)
  {
    hide Read, At, Wire, Steady, Chatting, AllTalk, Speaks, Formats, HeardIn, HeardOf, CanMove, Disciplined,
         NoClose, Heard, ReadsOn;
    var s, frames := StreamOf(x, move), y.ctx.codec.sent;
    var missing := Missing(x, y, move);
    PlaceBefore(x, y, move, r);
    AllTalkTail(y.ctx.role, x.ctx.config, frames, r);
    ReadHears(x.ctx, s, missing, frames[r..], y.ctx.config);
    ReadTakes(x.ctx, s);
    extra := ReadTalks(x, y, move);
    var l, x' := Read(x.ctx, s), Moved(x, move);
    RestArrives(l.stream.incoming, move.incoming);
    if Unheard(x.ctx, l, missing, frames[r..]) {
      r' := r;
      assert x.heard + [] == x.heard && HeardOf(ReadResult(l)) == [] by { NothingHeard(ReadResult(l)); }
    } else {
      r' := r + 1;
      HeardMore(x, y, x', r, ReadResult(l));
      assert frames[r..][1..] == frames[r'..];
    }
    AtIsWire(l.ctx.codec, l.stream, missing, frames[r'..]);
    PlaceAfter(x, y, move, x', l.stream.incoming, frames[r'..]);
    ReadGoesOn(x, y, move, x', l, missing, r, r');
  }

  lemma NothingHeard(r: Result<Option<Message>>)
    requires r.Err?
    ensures HeardOf(r) == []
  {
  }

  lemma ReadGoesOn(x: Side, y: Side, move: Move, x': Side, l: Step<Message>, missing: Bytes, r: nat, r': nat)
    requires CanMove(x, y, move) && Talks(y, x.ctx.config) && Hears(x, y, r) && Hears(x', y, r')
    requires RestOf(l.stream.incoming, move.incoming) && missing == Missing(x, y, move)
    requires x'.ctx == l.ctx && x'.taken == x.taken + (|Arriving(move.incoming)| - |Arriving(l.stream.incoming)|)
    requires var frames := y.ctx.codec.sent;
             || (r' == r && Unheard(x.ctx, l, missing, frames[r..]))
             || (&& r' == r + 1 && Heard(x.ctx.state, ReadResult(l), l.ctx.state, frames[r])
                 && l.result != Err(Io(WouldBlock)))
    ensures ReadsOn(x, y, x', ReadResult(l))
  {
    hide At, Wire, Steady, Fair, Chatting, AllTalk, Formats, HeardIn, HeardOf, Disciplined, NoClose, HeardOfFrame;
    var frames := y.ctx.codec.sent;
    if x.ctx.state.Active? && y.ctx.state.Active? {
      ActiveSentNoClose(y.ctx, r');
    }
    if ReadResult(l) == Err(Io(WouldBlock)) && AllTakenIn(x', y) {
      TakenInIsExhausted(x, y, move, x', l.stream);
      assert frames[r..] == [];
      assert frames[..r] == frames;
    }
  }

  lemma TakenInIsExhausted(x: Side, y: Side, move: Move, x': Side, s: Stream)
    requires CanMove(x, y, move) && RestOf(s.incoming, move.incoming)
    requires x'.taken == x.taken + (|Arriving(move.incoming)| - |Arriving(s.incoming)|) && AllTakenIn(x', y)
    ensures Exhausted(s, Missing(x, y, move))
  {
    hide Steady, Fair;
    RestArrives(s.incoming, move.incoming);
  }

  lemma ReadTakes(ctx: Context, s: Stream)
    ensures RestOf(Read(ctx, s).stream.incoming, s.incoming)
  {
    hide ReadLoop;
    ReadLoopTakes(ctx, s);
    RestOfItself(s.incoming);
  }

  lemma AtIsWire(c: Codec, s: Stream, missing: Bytes, frames: seq<Frame>)
    requires At(c, s, missing, frames)
    ensures Wire(c.announced, c.input + (Arriving(s.incoming) + missing), frames)
  {
  }

  /** Any other call of the mover. */
  lemma OtherMove(x: Side, y: Side, move: Move, r: nat) returns (extra: seq<Frame>)
    requires CanMove(x, y, move) && !move.call.ReadCall? && x.ctx.role == Peer(y.ctx.role)
    requires Talks(x, y.ctx.config) && Hears(x, y, r)
    ensures var x' := Moved(x, move);
            && Talks(x', y.ctx.config) && x'.ctx.codec.sent == x.ctx.codec.sent + extra
            && Hears(x', y, r)
            && |x.out| <= |x'.out| && x'.ctx.role == x.ctx.role && x'.ctx.config == x.ctx.config
            && (x.ctx.state.Active? && !Closes(move.call) ==> x'.ctx.state.Active?)
  {
    hide Perform, Wire, Chatting, TalkFrame, Speaks, Formats, HeardIn, Steady, Fair, HeardOf, Disciplined, NoClose;
    var s, x' := StreamOf(x, move), Moved(x, move);
    PerformGrows(x.ctx, s, move.call);
    PerformState(x.ctx, s, move.call);
    PerformKeepsAccounts(x, move);
    PerformSpeaks(x.ctx, s, move.call, y.ctx.config);
    PerformDisciplined(x.ctx, s, move.call, y.ctx.config);
    var said := SaidBy(move, Act(x, move));
    SpeaksChats(x.ctx, x'.ctx, y.ctx.config, said);
    extra := SpokenTalks(x, x', y.ctx.config, said);
    assert x.heard + [] == x.heard;
  }

  /** A move of one side keeps the conversation. */
  lemma MoveKeeps(x: Side, y: Side, move: Move)
    requires CanMove(x, y, move) && InConversation(x, y)
    ensures var x' := Moved(x, move);
            && InConversation(x', y) && x'.ctx.config == x.ctx.config
            && (move.call.ReadCall? ==> ReadsOn(x, y, x', Act(x, move).result))
            && (x.ctx.state.Active? && y.ctx.state.Active? && !Closes(move.call) ==> x'.ctx.state.Active?)
  {
    hide Talks, Hears, CanMove, Moved, Act, AllTakenIn;
    var x' := Moved(x, move);
    var r: nat :| Hears(x, y, r);
    var q: nat :| Hears(y, x, q);
    var extra;
    if move.call.ReadCall? {
      var r';
      r', extra := ReadMove(x, y, move, r);
      assert Hears(x', y, r');
    } else {
      extra := OtherMove(x, y, move, r);
      assert Hears(x', y, r);
    }
    TalksAccounts(x, y.ctx.config);
    TalksAccounts(x', y.ctx.config);
    StillHears(y, x, x', extra, q);
  }

  lemma TalksAccounts(x: Side, peer: Config)
    requires Talks(x, peer)
    ensures x.out + x.ctx.codec.output == Formats(x.ctx.codec.sent)
  {
  }

  lemma ConversationTurns(x: Side, y: Side)
    requires InConversation(x, y)
    ensures InConversation(y, x)
  {
    hide Talks, Hears;
  }

  ghost predicate Conversing(l: Link, role: Role, config: Config, peerConfig: Config) {
    && InConversation(l.left, l.right)
    && l.left.ctx.role == role && l.left.ctx.config == config && l.right.ctx.config == peerConfig
  }

  lemma NewConversation(role: Role, config: Config, peerConfig: Config)
    requires TakesControls(config) && TakesControls(peerConfig)
    ensures Conversing(NewLink(role, config, peerConfig), role, config, peerConfig)
  {
    var l := NewLink(role, config, peerConfig);
    assert Hears(l.left, l.right, 0) && Hears(l.right, l.left, 0);
  }

  lemma TakeKeeps(l: Link, turn: Turn, role: Role, config: Config, peerConfig: Config)
    requires Conversing(l, role, config, peerConfig) && CanTake(l, turn)
    ensures Conversing(Take(l, turn), role, config, peerConfig)
  {
    hide InConversation, CanMove, Moved;
    ConversationTurns(l.left, l.right);
    ConversationRoles(l.left, l.right);
    if turn.byLeft {
      MoveKeeps(l.left, l.right, turn.move);
      ConversationRoles(Take(l, turn).left, l.right);
    } else {
      MoveKeeps(l.right, l.left, turn.move);
      ConversationTurns(Take(l, turn).right, l.left);
    }
  }

  lemma ConversationRoles(x: Side, y: Side)
    requires InConversation(x, y)
    ensures x.ctx.role == Peer(y.ctx.role)
  {
  }

  lemma {:induction false} TalkKeeps(l: Link, turns: seq<Turn>, role: Role, config: Config, peerConfig: Config)
    requires Conversing(l, role, config, peerConfig) && CanTalk(l, turns)
    ensures Conversing(Talk(l, turns), role, config, peerConfig)
    decreases turns
  {
    hide Conversing, Take, CanTake;
    if turns != [] {
      TakeKeeps(l, turns[0], role, config, peerConfig);
      TalkKeeps(Take(l, turns[0]), turns[1..], role, config, peerConfig);
    }
  }

  lemma HeardInOrder(x: Side, y: Side)
    requires InConversation(x, y)
    ensures x.heard <= HeardIn(y.ctx.codec.sent) && Spoken(x.heard) <= y.said
    ensures !x.ctx.state.CanRead() ==> !NoClose(y.ctx.codec.sent)
  {
    hide Chatting, TalkFrame, Wire, Formats, HeardIn, Disciplined, Spoken;
    var r: nat :| Hears(x, y, r);
    var frames := y.ctx.codec.sent;
    assert frames == frames[..r] + frames[r..];
    HeardInAppend(frames[..r], frames[r..]);
    assert forall f | f in frames[..r] :: f in frames;
    SideSaid(y, x.ctx.config);
    SpokenOfPrefix(x.heard, HeardIn(frames));
  }

  /**
   Two new contexts in conversation, for any order of data writes, pings, pongs, flushes, reads and closes of
   both, also at once and with data in flight, any refusals, partial and failed writes, masks, cuts and
   interruptions: at any time each side has heard, in order, the first of the data messages and pings that the
   other's writes had accepted, has heard just the first of the messages in the other's frames, pongs
   included, and is past the other's Close only if the other has sent one.
   */
  lemma BothHearInOrder(role: Role, config: Config, peerConfig: Config, turns: seq<Turn>)
    requires TakesControls(config) && TakesControls(peerConfig)
    requires CanTalk(NewLink(role, config, peerConfig), turns)
    ensures var l := Talk(NewLink(role, config, peerConfig), turns);
            && Spoken(l.left.heard) <= l.right.said && Spoken(l.right.heard) <= l.left.said
            && l.left.heard <= HeardIn(l.right.ctx.codec.sent) && l.right.heard <= HeardIn(l.left.ctx.codec.sent)
            && (!l.left.ctx.state.CanRead() ==> !NoClose(l.right.ctx.codec.sent))
            && (!l.right.ctx.state.CanRead() ==> !NoClose(l.left.ctx.codec.sent))
  {
    hide Talk, CanTalk, InConversation, NoClose;
    NewConversation(role, config, peerConfig);
    TalkKeeps(NewLink(role, config, peerConfig), turns, role, config, peerConfig);
    var l := Talk(NewLink(role, config, peerConfig), turns);
    HeardInOrder(l.left, l.right);
    ConversationTurns(l.left, l.right);
    HeardInOrder(l.right, l.left);
  }

  /**
   And while a side can read, its reads never fail but by the stream.  When a read would block with nothing
   let go by the other side left to take in, everything the other's writes had accepted has been heard, and
   every pong it has sent; and the side is past the other's Close if and only if the other has sent one.
   */
  lemma EverythingIsHeard(role: Role, config: Config, peerConfig: Config, turns: seq<Turn>, turn: Turn)
    requires TakesControls(config) && TakesControls(peerConfig)
    requires CanTalk(NewLink(role, config, peerConfig), turns)
    requires CanTake(Talk(NewLink(role, config, peerConfig), turns), turn) && turn.move.call.ReadCall?
    ensures var l := Talk(NewLink(role, config, peerConfig), turns);
            var (x, y) := if turn.byLeft then (l.left, l.right) else (l.right, l.left);
            var result, x' := Act(x, turn.move).result, Moved(x, turn.move);
            && (x.ctx.state.CanRead() && result.Err? ==> result.error.Io?)
            && (result == Err(Io(WouldBlock)) && AllTakenIn(x', y) ==>
                  && Spoken(x'.heard) == y.said && x'.heard == HeardIn(y.ctx.codec.sent)
                  && (!x'.ctx.state.CanRead() <==> !NoClose(y.ctx.codec.sent)))
  {
    hide Talk, CanTalk, InConversation, CanMove, Moved, Act, AllTakenIn, NoClose, Spoken, HeardIn;
    NewConversation(role, config, peerConfig);
    TalkKeeps(NewLink(role, config, peerConfig), turns, role, config, peerConfig);
    var l := Talk(NewLink(role, config, peerConfig), turns);
    BothSaid(l.left, l.right);
    if turn.byLeft {
      MoveKeeps(l.left, l.right, turn.move);
    } else {
      ConversationTurns(l.left, l.right);
      MoveKeeps(l.right, l.left, turn.move);
    }
  }

  lemma BothSaid(x: Side, y: Side)
    requires InConversation(x, y)
    ensures Spoken(HeardIn(x.ctx.codec.sent)) == x.said && Spoken(HeardIn(y.ctx.codec.sent)) == y.said
  {
    hide Talks, Hears, Spoken, HeardIn;
    SideSaid(x, y.ctx.config);
    SideSaid(y, x.ctx.config);
  }

  predicate NoCloses(turns: seq<Turn>) {
    forall turn | turn in turns :: !Closes(turn.move.call)
  }

  predicate BothActive(l: Link) {
    l.left.ctx.state.Active? && l.right.ctx.state.Active?
  }

  lemma TakeStaysActive(l: Link, turn: Turn, role: Role, config: Config, peerConfig: Config)
    requires Conversing(l, role, config, peerConfig) && CanTake(l, turn) && BothActive(l) && !Closes(turn.move.call)
    ensures BothActive(Take(l, turn))
  {
    hide InConversation, CanMove, Moved;
    ConversationTurns(l.left, l.right);
    if turn.byLeft {
      MoveKeeps(l.left, l.right, turn.move);
    } else {
      MoveKeeps(l.right, l.left, turn.move);
    }
  }

  /** A conversation in which nobody closes stays open, so that all its reads fail only by the stream. */
  lemma {:induction false} StaysActive(l: Link, turns: seq<Turn>, role: Role, config: Config, peerConfig: Config)
    requires Conversing(l, role, config, peerConfig) && CanTalk(l, turns) && BothActive(l) && NoCloses(turns)
    ensures BothActive(Talk(l, turns))
    decreases turns
  {
    hide Conversing, Take, CanTake, BothActive;
    if turns != [] {
      assert turns[0] in turns;
      TakeKeeps(l, turns[0], role, config, peerConfig);
      TakeStaysActive(l, turns[0], role, config, peerConfig);
      StaysActive(Take(l, turns[0]), turns[1..], role, config, peerConfig);
    }
  }
}
