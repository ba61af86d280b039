/**
 The WebSocket connection state machine (`src/adapters/ws/protocol/mod.rs`), call by call.
 */
module Contexts {
  import opened Base
  import opened Coding
  import opened Frames
  import opened Streams
  import opened Codecs
  import opened Messages

  datatype Role = Server | Client

  datatype State = Active | ClosedByUs | ClosedByPeer | CloseAcknowledged | Terminated {
    predicate CanRead() {
      Active? || ClosedByUs?
    }
  }

  /** The connection only ever moves on. */
  predicate Forward(before: State, after: State) {
    before == after || before.Active? || after.Terminated? || (before.ClosedByUs? && after.CloseAcknowledged?)
  }

  datatype Config = Config(writeBufferSize: nat, maxWriteBufferSize: nat,
                           maxMessageSize: Option<nat>, maxFrameSize: Option<nat>, acceptUnmasked: bool) {
    predicate Valid() {
      maxWriteBufferSize > writeBufferSize
    }

    function MessageLimit(): nat {
      if maxMessageSize.Some? then maxMessageSize.value else USIZE_MAX
    }

    function FrameLimit(): nat {
      if maxFrameSize.Some? then maxFrameSize.value else USIZE_MAX
    }
  }

  datatype Context = Context(role: Role, codec: Codec, state: State, incomplete: Option<Incomplete>,
                             additional: Option<Frame>, config: Config)

  function NewContext(role: Role, part: Bytes, config: Config): Context {
    Context(role, Codec(part, None, [], config.maxWriteBufferSize, config.writeBufferSize, []),
            Active, None, None, config)
  }

  datatype Step<T> = Step(ctx: Context, stream: Stream, result: Result<T>)

  // ---------------------------------------------------------------- writing

  /** Writing leaves alone whatever reading depends on. */
  predicate ReadSideKept<T>(ctx: Context, s: Stream, r: Step<T>) {
    && r.ctx.codec == ctx.codec.(output := r.ctx.codec.output, sent := r.ctx.codec.sent)
    && r.ctx == ctx.(codec := r.ctx.codec, state := r.ctx.state, additional := r.ctx.additional)
    && r.stream.incoming == s.incoming && |s.accepted| <= |r.stream.accepted|
    && Forward(ctx.state, r.ctx.state)
  }

  /** A reset by the peer is a clean close once nothing more can be read. */
  function CheckReset<T>(r: Result<T>, state: State): Result<T> {
    if r == Err(Io(ConnectionReset)) && !state.CanRead() then Err(ConnectionClosed) else r
  }

  function Prepared(role: Role, s: Stream, f: Frame): (Frame, Stream) {
    if role.Server? then (f, s)
    else if s.masks == [] then (f.(header := f.header.(mask := Some([0, 0, 0, 0]))), s)
    else (f.(header := f.header.(mask := Some(s.masks[0]))), s.(masks := s.masks[1..]))
  }

  function Buffer(ctx: Context, s: Stream, f: Frame): (r: Step<()>)
    ensures ReadSideKept(ctx, s, r) && r.ctx.additional == ctx.additional && r.ctx.state == ctx.state
  {
    var (f', s') := Prepared(ctx.role, s, f);
    var b := BufferFrame(ctx.codec, s', f');
    Step(ctx.(codec := b.codec), b.stream, CheckReset(b.result, ctx.state))
  }

  function SetAdditional(ctx: Context, f: Frame): Context {
    if ctx.additional.None? || ctx.additional.value.Is(Control(ControlOp.Pong))
    then ctx.(additional := Some(f)) else ctx
  }

  /** Moves the pending reply, if any, into the buffer; a full buffer leaves it pending. */
  function SendAdditional(ctx: Context, s: Stream): (r: Step<bool>)
    ensures ReadSideKept(ctx, s, r) && r.ctx.state == ctx.state
  {
    match ctx.additional
    case None => Step(ctx, s, Ok(false))
    case Some(f) =>
      var b := Buffer(ctx.(additional := None), s, f);
      match b.result
      case Ok(_) => Step(b.ctx, b.stream, Ok(true))
      case Err(WriteBufferFull(f')) => Step(SetAdditional(b.ctx, f'), b.stream, Ok(false))
      case Err(e) => Step(b.ctx, b.stream, Err(e))
  }

  /** A server with nothing left to read empties its buffer and is done. */
  function FinishClosing(ctx: Context, s: Stream, shouldFlush: bool): (r: Step<bool>)
    ensures ReadSideKept(ctx, s, r) && r.ctx.additional == ctx.additional
  {
    if ctx.role.Server? && !ctx.state.CanRead() then
      var w := WriteOutBuffer(ctx.codec, s);
      match w.result
      case Err(e) => Step(ctx.(codec := w.codec), w.stream, Err(e))
      case Ok(_) => Step(ctx.(codec := w.codec, state := Terminated), w.stream, Err(ConnectionClosed))
    else Step(ctx, s, Ok(shouldFlush))
  }

  function WriteInner(ctx: Context, s: Stream, data: Option<Frame>): (r: Step<bool>)
    ensures ReadSideKept(ctx, s, r)
  {
    var b := if data.Some? then Buffer(ctx, s, data.value) else Step(ctx, s, Ok(()));
    match b.result
    case Err(e) => Step(b.ctx, b.stream, Err(e))
    case Ok(_) =>
      var a := SendAdditional(b.ctx, b.stream);
      match a.result
      case Err(e) => a
      case Ok(shouldFlush) => FinishClosing(a.ctx, a.stream, shouldFlush)
  }

  function FlushStream(s: Stream): (r: (Stream, Result<()>))
    ensures r.0.incoming == s.incoming && r.0.accepted == s.accepted
  {
    if s.flushes == [] then (s, Ok(()))
    else
      var s' := s.(flushes := s.flushes[1..]);
      match s.flushes[0]
      case Flushes => (s', Ok(()))
      case FlushFails(kind) => (s', Err(Io(kind)))
  }

  function Flush(ctx: Context, s: Stream): (r: Step<()>)
    ensures ReadSideKept(ctx, s, r)
  {
    var w := WriteInner(ctx, s, None);
    match w.result
    case Err(e) => Step(w.ctx, w.stream, Err(e))
    case Ok(_) =>
      var d := WriteOutBuffer(w.ctx.codec, w.stream);
      var ctx' := w.ctx.(codec := d.codec);
      match d.result
      case Err(e) => Step(ctx', d.stream, Err(e))
      case Ok(_) =>
        var (s', r) := FlushStream(d.stream);
        Step(ctx', s', r)
  }

  function Shut(ctx: Context, s: Stream, reason: Option<CloseReason>): (r: Step<()>)
    ensures ReadSideKept(ctx, s, r)
  {
    if ctx.state.Active? then
      var w := WriteInner(ctx.(state := ClosedByUs), s, CloseFrame(reason));
      match w.result
      case Err(e) => Step(w.ctx, w.stream, Err(e))
      case Ok(_) => Flush(w.ctx, w.stream)
    else Flush(ctx, s)
  }

  function WriteFrame(ctx: Context, s: Stream, f: Frame): (r: Step<()>)
    ensures ReadSideKept(ctx, s, r)
  {
    var w := WriteInner(ctx, s, Some(f));
    match w.result
    case Err(e) => Step(w.ctx, w.stream, Err(e))
    case Ok(shouldFlush) => if shouldFlush then Flush(w.ctx, w.stream) else Step(w.ctx, w.stream, Ok(()))
  }

  function WritePong(ctx: Context, s: Stream, data: Bytes): (r: Step<()>)
    ensures ReadSideKept(ctx, s, r)
  {
    var w := WriteInner(SetAdditional(ctx, PongFrame(data)), s, None);
    Step(w.ctx, w.stream, if w.result.Err? then Err(w.result.error) else Ok(()))
  }

  function Write(ctx: Context, s: Stream, message: Message): (r: Step<()>)
    ensures ReadSideKept(ctx, s, r)
  {
    if ctx.state.Terminated? then Step(ctx, s, Err(AlreadyClosed))
    else if !ctx.state.Active? then Step(ctx, s, Err(Violation(SendAfterClosing)))
    else
      match message
      case Text(data) => WriteFrame(ctx, s, MessageFrame(data, DataOp.Text, true))
      case Binary(data) => WriteFrame(ctx, s, MessageFrame(data, DataOp.Binary, true))
      case Ping(data) => WriteFrame(ctx, s, PingFrame(data))
      case Pong(data) => WritePong(ctx, s, data)
      case Close(reason) => Shut(ctx, s, reason)
      case Raw(f) => WriteFrame(ctx, s, f)
  }

  // ---------------------------------------------------------------- reading

  datatype Handled = Handled(ctx: Context, result: Result<Option<Message>>)

  /** The peer closes: answer it, or take it as the answer to our own close. */
  function DoClose(ctx: Context, reason: Option<CloseReason>): (Context, Option<Message>)
    requires !ctx.state.Terminated?
  {
    match ctx.state
    case Active =>
      var echoed := match reason
        case Some(r) =>
          if r.code.IsAllowed() then reason
          else Some(CloseReason(CloseCode.Protocol, PROTOCOL_VIOLATION))
        case None => None;
      var closed := ctx.(state := ClosedByPeer);
      var reply := CloseFrame(echoed);
      (if reply.Some? then SetAdditional(closed, reply.value) else closed, Some(Message.Close(echoed)))
    case ClosedByUs => (ctx.(state := CloseAcknowledged), Some(Message.Close(reason)))
    case _ => (ctx, None)
  }

  /** "Protocol violation" in ASCII. */
  const PROTOCOL_VIOLATION: Bytes :=
    [80, 114, 111, 116, 111, 99, 111, 108, 32, 118, 105, 111, 108, 97, 116, 105, 111, 110]

  function HandleControl(ctx: Context, f: Frame): Handled
    requires f.header.opcode.Control? && ctx.state.CanRead()
  {
    if !f.header.fin then Handled(ctx, Err(Violation(FragmentedControlFrame)))
    else if |f.payload| > 125 then Handled(ctx, Err(Violation(ControlFrameTooBig)))
    else
      match f.header.opcode.control
      case Close =>
        (match ReadClose(f.payload)
         case InvalidSequence => Handled(ctx, Err(Violation(InvalidCloseSequence)))
         case NoReason => var (ctx', m) := DoClose(ctx, None); Handled(ctx', Ok(m))
         case Reason(r) => var (ctx', m) := DoClose(ctx, Some(r)); Handled(ctx', Ok(m)))
      case ReservedControl(i) => Handled(ctx, Err(Violation(UnknownControlFrameType(i))))
      case Ping =>
        Handled(if ctx.state.Active? then SetAdditional(ctx, PongFrame(f.payload)) else ctx,
                Ok(Some(Message.Ping(f.payload))))
      case Pong => Handled(ctx, Ok(Some(Message.Pong(f.payload))))
  }

  function Completed(ctx: Context, m: Incomplete): Handled {
    match CompleteMessage(m)
    case Ok(message) => Handled(ctx, Ok(Some(message)))
    case Err(e) => Handled(ctx, Err(e))
  }

  function HandleData(ctx: Context, f: Frame): Handled
    requires f.header.opcode.Data?
  {
    var limit := ctx.config.MessageLimit();
    var op := f.header.opcode.data;
    if op.Continue? then
      if ctx.incomplete.None? then Handled(ctx, Err(Violation(UnexpectedContinueFrame)))
      else
        var g := ExtendMessage(ctx.incomplete.value, f.payload, limit);
        var ctx' := ctx.(incomplete := Some(g.message));
        if g.result.Err? then Handled(ctx', Err(g.result.error))
        else if f.header.fin then Completed(ctx.(incomplete := None), g.message)
        else Handled(ctx', Ok(None))
    else if ctx.incomplete.Some? then Handled(ctx, Err(Violation(ExpectedFragment(op))))
    else if op.ReservedData? then Handled(ctx, Err(Violation(UnknownDataFrameType(op.code))))
    else
      var start := if op.Text? then IncompleteText(EMPTY_COLLECTOR) else IncompleteBinary([]);
      var g := ExtendMessage(start, f.payload, limit);
      if g.result.Err? then Handled(ctx, Err(g.result.error))
      else if f.header.fin then Completed(ctx, g.message)
      else Handled(ctx.(incomplete := Some(g.message)), Ok(None))
  }

  datatype Opened = Opened(frame: Frame) | Wrong(error: ProtocolError)

  /** Reserved bits and masking rules of the role. */
  function Open(role: Role, acceptUnmasked: bool, f: Frame): Opened {
    if f.header.rsv1 || f.header.rsv2 || f.header.rsv3 then Wrong(NonZeroReservedBits)
    else if role.Client? then
      if f.header.mask.Some? then Wrong(MaskedFrameFromServer) else Opened(f)
    else if f.header.mask.Some? then Opened(ApplyMask(f))
    else if acceptUnmasked then Opened(f)
    else Wrong(UnmaskedFrameFromClient)
  }

  function HandleFrame(ctx: Context, f: Frame): (h: Handled)
    ensures h.ctx.codec == ctx.codec && h.ctx.role == ctx.role && h.ctx.config == ctx.config
    ensures Forward(ctx.state, h.ctx.state)
    ensures h.result.Err? ==> !h.result.error.Io?
  {
    if !ctx.state.CanRead() then Handled(ctx, Err(Violation(ReceivedAfterClosing)))
    else
      match Open(ctx.role, ctx.config.acceptUnmasked, f)
      case Wrong(e) => Handled(ctx, Err(Violation(e)))
      case Opened(f') => if f'.header.opcode.Control? then HandleControl(ctx, f') else HandleData(ctx, f')
  }

  function HandleEnd(ctx: Context): Handled {
    Handled(ctx.(state := Terminated),
            if ctx.state.ClosedByPeer? || ctx.state.CloseAcknowledged? then Err(ConnectionClosed)
            else Err(Violation(ResetWithoutClosingHandshake)))
  }

  /** Reading leaves the buffered output and the limits alone. */
  predicate WriteSideKept(ctx: Context, s: Stream, ctx': Context, s': Stream) {
    && ctx'.codec == ctx.codec.(input := ctx'.codec.input, announced := ctx'.codec.announced)
    && ctx'.role == ctx.role && ctx'.config == ctx.config
    && s' == s.(incoming := s'.incoming)
    && Forward(ctx.state, ctx'.state)
  }

  function ReadMessageFrame(ctx: Context, s: Stream): (r: Step<Option<Message>>)
    ensures WriteSideKept(ctx, s, r.ctx, r.stream)
  {
    var r := ReadFrame(ctx.codec, s, ctx.config.FrameLimit());
    var ctx' := ctx.(codec := r.codec);
    var checked: Result<Option<Frame>> := CheckReset(r.result, ctx.state);
    match checked
    case Err(e) => Step(ctx', r.stream, Err(e))
    case Ok(None) => var h := HandleEnd(ctx'); Step(h.ctx, r.stream, h.result)
    case Ok(Some(f)) => var h := HandleFrame(ctx', f); Step(h.ctx, r.stream, h.result)
  }

  /** Before each frame is read: push out a pending reply, or end a server that has nothing left to do. */
  function BeforeRead(ctx: Context, s: Stream): (r: Step<()>)
    ensures ReadSideKept(ctx, s, r)
  {
    if ctx.additional.Some? then
      var f := Flush(ctx, s);
      if f.result == Err(Io(WouldBlock)) then f.(result := Ok(())) else f
    else if ctx.role.Server? && !ctx.state.CanRead() then
      Step(ctx.(state := Terminated), s, Err(ConnectionClosed))
    else Step(ctx, s, Ok(()))
  }

  lemma ReadProgress(ctx: Context, s: Stream)
    ensures var b := BeforeRead(ctx, s);
            var r := ReadMessageFrame(b.ctx, b.stream);
            r.result == Ok(None) ==> Unread(r.ctx.codec, r.stream) < Unread(ctx.codec, s)
  {
    hide ReadFrame, Flush, HandleFrame;
    var b := BeforeRead(ctx, s);
    ReadFrameProgress(b.ctx.codec, b.stream, b.ctx.config.FrameLimit());
  }

  function ReadLoop(ctx: Context, s: Stream): (r: Step<Message>)
    ensures r.ctx.role == ctx.role && r.ctx.config == ctx.config && Forward(ctx.state, r.ctx.state)
    ensures |s.accepted| <= |r.stream.accepted|
    decreases Unread(ctx.codec, s)
  {
    var b := BeforeRead(ctx, s);
    match b.result
    case Err(e) => Step(b.ctx, b.stream, Err(e))
    case Ok(_) =>
      var r := ReadMessageFrame(b.ctx, b.stream);
      ReadProgress(ctx, s);
      match r.result
      case Err(e) => Step(r.ctx, r.stream, Err(e))
      case Ok(Some(message)) => Step(r.ctx, r.stream, Ok(message))
      case Ok(None) => ReadLoop(r.ctx, r.stream)
  }

  function Read(ctx: Context, s: Stream): (r: Step<Message>)
    ensures r.ctx.role == ctx.role && r.ctx.config == ctx.config && Forward(ctx.state, r.ctx.state)
    ensures |s.accepted| <= |r.stream.accepted|
  {
    if ctx.state.Terminated? then Step(ctx, s, Err(AlreadyClosed)) else ReadLoop(ctx, s)
  }
}
