/**
 The closing handshake between two contexts: a close of one side, its echo from the other
 (section 7.1 of RFC 6455).
 */
module CloseEndToEnd {
  import opened Base
  import opened Coding
  import opened Masking
  import opened Frames
  import opened Streams
  import opened Codecs
  import opened Messages
  import opened Contexts
  import opened Sessions
  import opened Closing
  import opened Ending
  import opened Reading
  import opened EndToEnd

  // ---------------------------------------------------------------- frames of a close

  /** `f` is `plain` as a writer of this role puts it into its buffer: masked exactly by a client. */
  predicate Sends(writer: Role, f: Frame, plain: Frame) {
    f == plain.(header := plain.header.(mask := f.header.mask)) && (f.header.mask.Some? <==> writer.Client?)
  }

  function FrameOf(r: CloseReason): Frame {
    CloseFrame(Some(r)).value
  }

  /** A control frame carries at most 125 bytes, and the receiver may allow fewer. */
  predicate Receivable(config: Config, r: CloseReason) {
    2 + |r.reason| <= 125 && 2 + |r.reason| <= config.FrameLimit()
  }

  /** The reason as the receiver reads it: the code by its number. */
  function Received(r: CloseReason): CloseReason {
    CloseReason(CloseCodeOf(r.code.Number()), r.reason)
  }

  /** What an active peer answers. */
  function Echo(r: CloseReason): CloseReason {
    if Received(r).code.IsAllowed() then Received(r) else CloseReason(CloseCode.Protocol, PROTOCOL_VIOLATION)
  }

  lemma ClosePayload(r: CloseReason)
    ensures |FrameOf(r).payload| == 2 + |r.reason| && ReadClose(FrameOf(r).payload) == Reason(Received(r))
    ensures FrameOf(r).header == DEFAULT_HEADER
  {
    hide CloseCodeOf;
    CloseRoundTrip(r);
  }

  lemma CloseFits(writer: Role, f: Frame, r: CloseReason, config: Config)
    requires Sends(writer, f, FrameOf(r)) && Receivable(config, r)
    ensures Fits(f, config.FrameLimit())
  {
    hide ReadClose;
    ClosePayload(r);
  }

  /** A close frame off the wire closes the connection, whichever side of the handshake this is. */
  lemma CloseHandled(ctx: Context, f: Frame, r: CloseReason)
    requires ctx.state.CanRead() && Sends(Peer(ctx.role), f, FrameOf(r)) && Receivable(ctx.config, r)
    ensures var (closed, m) := DoClose(ctx, Some(Received(r)));
            HandleFrame(ctx, OnTheWire(f)) == Handled(closed, Ok(m))
  {
    hide Masked, DoClose, ReadClose, Received, FrameOf;
    UnmaskOnTheWire(f);
    ClosePayload(r);
    assert f.(header := f.header.(mask := None)) == FrameOf(r);
  }

  /** A frame within the frame limit is then taken exactly if its reason has at most 123 bytes. */
  lemma CloseFrameTakenIff(ctx: Context, f: Frame, r: CloseReason)
    requires ctx.state.CanRead() && Sends(Peer(ctx.role), f, FrameOf(r))
    ensures var h := HandleFrame(ctx, OnTheWire(f));
            && (h.result.Ok? <==> |r.reason| <= 123)
            && (|r.reason| > 123 ==> h == Handled(ctx, Err(Violation(ControlFrameTooBig))))
  {
    hide Masked, DoClose, ReadClose, Received, FrameOf;
    UnmaskOnTheWire(f);
    ClosePayload(r);
    assert f.(header := f.header.(mask := None)) == FrameOf(r);
  }

  // ---------------------------------------------------------------- the side that closes

  lemma FlushSendsNoFrame(ctx: Context, s: Stream)
    requires ctx.additional.None? && ctx.state.CanRead()
    ensures var r := Flush(ctx, s).ctx;
            r.additional.None? && r.state == ctx.state && r.codec.sent == ctx.codec.sent
  {
    hide Buffer, WriteOut;
  }

  /** A close with a reason that fits adds exactly its frame, whatever the stream answers. */
  lemma CloseSends(ctx: Context, s: Stream, reason: CloseReason)
    requires Idle(ctx) && HasRoom(ctx, s, FrameOf(reason))
    ensures var r := Shut(ctx, s, Some(reason)).ctx;
            && r.state.ClosedByUs? && r.additional.None?
            && exists f :: r.codec.sent == ctx.codec.sent + [f] && Sends(ctx.role, f, FrameOf(reason))
  {
    hide Buffer, Flush, HasRoom, FrameOf;
    var ctx' := ctx.(state := ClosedByUs);
    SameRoom(ctx, s, FrameOf(reason));
    FullIffNoRoom(ctx', s, FrameOf(reason));
    BufferSends(ctx', s, FrameOf(reason));
    PreparedSends(ctx.role, s, reason);
    var w := WriteInner(ctx', s, CloseFrame(Some(reason)));
    assert CloseFrame(Some(reason)) == Some(FrameOf(reason)) by { FrameOfIs(reason); }
    assert w.ctx.state.ClosedByUs? && w.ctx.additional.None?;
    FlushSendsNoFrame(w.ctx, w.stream);
  }

  lemma FrameOfIs(reason: CloseReason)
    ensures CloseFrame(Some(reason)) == Some(FrameOf(reason))
  {
  }

  lemma PreparedSends(role: Role, s: Stream, reason: CloseReason)
    ensures Sends(role, Prepared(role, s, FrameOf(reason)).0, FrameOf(reason))
  {
    hide BigEndian;
  }

  // ---------------------------------------------------------------- reading a close

  /** One read, when the next frame is a close: nothing yet, or the close. */
  lemma ReadMeetsClose(ctx: Context, s: Stream, f: Frame, r: CloseReason)
    requires ctx.additional.None? && ctx.state.CanRead() && At(ctx.codec, s, [], [f])
    requires Sends(Peer(ctx.role), f, FrameOf(r)) && Receivable(ctx.config, r)
    ensures var l := Read(ctx, s);
            && WriteSideKept(ctx, s, l.ctx, l.stream)
            && (|| (&& l.result == Err(Io(WouldBlock)) && l.ctx == ctx.(codec := l.ctx.codec)
                    && At(l.ctx.codec, l.stream, [], [f]) && |l.stream.incoming| < |s.incoming|)
                || (&& l.ctx == DoClose(ctx.(codec := l.ctx.codec), Some(Received(r))).0
                    && Some(l.result) == OkOf(DoClose(ctx, Some(Received(r))).1)
                    && At(l.ctx.codec, l.stream, [], []) && |l.stream.incoming| <= |s.incoming|))
  {
    hide ReadFrame, HandleFrame, At, OnTheWire, Fits, Sends, DoClose, Received, Receivable;
    CloseFits(Peer(ctx.role), f, r, ctx.config);
    ReadFrameOnWire(ctx.codec, s, [], [f], ctx.config.FrameLimit());
    var raw := ReadFrame(ctx.codec, s, ctx.config.FrameLimit());
    if raw.result.Ok? {
      CloseHandled(ctx.(codec := raw.codec), f, r);
      SameAnswer(ctx, raw.codec, Some(Received(r)));
      assert [f][1..] == [];
    }
  }

  /** A frame over the limit is refused as soon as its header is there. */
  lemma TakeFrameTooLong(c: Codec, more: Bytes, f: Frame, limit: nat)
    requires Wire(c.announced, c.input + more, [f])
    requires !f.header.opcode.IsReserved() && limit < |f.payload| < USIZE_LIMIT
    ensures var t := TakeFrame(c, limit);
            || (t == Short(c) && more != [])
            || (t.Refused? && t.error == MessageTooLong(|f.payload|, limit))
  {
    hide ParseHeader, OnTheWire, Formats;
    if c.announced.None? {
      HeaderOnWire(c.input, more, [f], USIZE_MAX);
    }
  }

  lemma {:induction false} ReadFrameTooLong(c: Codec, s: Stream, f: Frame, limit: nat)
    requires At(c, s, [], [f]) && !f.header.opcode.IsReserved() && limit < |f.payload| < USIZE_LIMIT
    ensures var r := ReadFrame(c, s, limit);
            || (r.result == Err(Io(WouldBlock)) && At(r.codec, r.stream, [], [f]) && |r.stream.incoming| < |s.incoming|)
            || r.result == Err(MessageTooLong(|f.payload|, limit))
    decreases |s.incoming|
  {
    hide TakeFrame, Wire, Steady;
    var more := Arriving(s.incoming) + [];
    TakeFrameTooLong(c, more, f, limit);
    if TakeFrame(c, limit).Short? && s.incoming != [] {
      SteadyTail(s.incoming);
      var s' := s.(incoming := s.incoming[1..]);
      if s.incoming[0].Chunk? {
        var data := s.incoming[0].data;
        assert c.input + more == c.input + data + (Arriving(s'.incoming) + []);
        ReadFrameTooLong(c.(input := c.input + data), s', f, limit);
      } else {
        assert more == Arriving(s'.incoming) + [];
      }
    }
  }

  /** How a read ends that meets a close. */
  predicate CloseRead(config: Config, r: CloseReason, result: Result<Message>) {
    && (result.Ok? <==> Receivable(config, r))
    && (result.Ok? ==> result.value.Close?)
    && (2 + |r.reason| > config.FrameLimit() ==> result == Err(MessageTooLong(2 + |r.reason|, config.FrameLimit())))
    && (2 + |r.reason| <= config.FrameLimit() && |r.reason| > 123 ==> result == Err(Violation(ControlFrameTooBig)))
  }

  /**
   `close` sends a reason of any length.  A read of the peer that meets the close, in any cut, takes it if and
   only if the reason has at most 123 bytes and the frame is within the peer's limit; otherwise it says why.
   */
  lemma CloseTakenIff(ctx: Context, s: Stream, f: Frame, r: CloseReason)
    requires ctx.additional.None? && ctx.state.CanRead() && At(ctx.codec, s, [], [f])
    requires Sends(Peer(ctx.role), f, FrameOf(r)) && 2 + |r.reason| < USIZE_LIMIT
    ensures var l := Read(ctx, s);
            || (&& l.result == Err(Io(WouldBlock)) && At(l.ctx.codec, l.stream, [], [f])
                && |l.stream.incoming| < |s.incoming|)
            || CloseRead(ctx.config, r, l.result)
  {
    hide ReadFrame, HandleFrame, At, OnTheWire, FrameOf, DoClose, Received;
    var limit := ctx.config.FrameLimit();
    ClosePayload(r);
    if Receivable(ctx.config, r) {
      ReadMeetsClose(ctx, s, f, r);
      SameAnswer(ctx, ctx.codec, Some(Received(r)));
      CloseIsNoData(ctx, Some(Received(r)));
    } else if 2 + |r.reason| > limit {
      ReadFrameTooLong(ctx.codec, s, f, limit);
    } else {
      ReadFrameOnWire(ctx.codec, s, [], [f], limit);
      var raw := ReadFrame(ctx.codec, s, limit);
      CloseFrameTakenIff(ctx.(codec := raw.codec), f, r);
    }
  }

  function OkOf(m: Option<Message>): Option<Result<Message>> {
    if m.Some? then Some(Ok(m.value)) else None
  }

  lemma SameAnswer(ctx: Context, c: Codec, reason: Option<CloseReason>)
    requires ctx.state.CanRead()
    ensures DoClose(ctx.(codec := c), reason).1 == DoClose(ctx, reason).1 && DoClose(ctx, reason).1.Some?
    ensures DoClose(ctx.(codec := c), reason).0.codec == c
  {
  }

  /** Reading without a pending reply: nothing is written. */
  predicate OutputKept(ctx: Context, s: Stream, ctx': Context, s': Stream) {
    && ctx'.codec == ctx.codec.(input := ctx'.codec.input, announced := ctx'.codec.announced)
    && ctx'.role == ctx.role && ctx'.config == ctx.config
    && s' == s.(incoming := s'.incoming)
  }

  /** The reads that end with a close. */
  ghost predicate ClosingReads(ctx: Context, s: Stream, r: CloseReason, k: nat) {
    && ctx.state.CanRead() && k > 0
    && var p := Play(ctx, s, Reads(k));
       && AllData(p.results) == []
       && p.results[k - 1] == Ok(DoClose(ctx, Some(Received(r))).1)
       && p.ctx == DoClose(ctx.(codec := p.ctx.codec), Some(Received(r))).0
       && OutputKept(ctx, s, p.ctx, p.stream)
  }

  /** Enough reads meet a close whose bytes have been handed over. */
  lemma {:induction false} ReadsMeetClose(ctx: Context, s: Stream, f: Frame, r: CloseReason) returns (k: nat)
    requires ctx.additional.None? && ctx.state.CanRead() && At(ctx.codec, s, [], [f])
    requires Sends(Peer(ctx.role), f, FrameOf(r)) && Receivable(ctx.config, r)
    ensures k <= |s.incoming| + 1 && ClosingReads(ctx, s, r, k)
    decreases |s.incoming|
  {
    hide Read, At, Sends, FrameOf, Receivable, ClosingReads, DoClose;
    ReadMeetsClose(ctx, s, f, r);
    var l := Read(ctx, s);
    if l.result == Err(Io(WouldBlock)) {
      var j := ReadsMeetClose(l.ctx, l.stream, f, r);
      k := j + 1;
      BlockedThenCloses(ctx, s, r, j);
    } else {
      k := 1;
      ClosesAtOnce(ctx, s, r);
    }
  }

  lemma BlockedThenCloses(ctx: Context, s: Stream, r: CloseReason, j: nat)
    requires ctx.state.CanRead()
    requires var l := Read(ctx, s);
             && l.result == Err(Io(WouldBlock)) && l.ctx == ctx.(codec := l.ctx.codec)
             && WriteSideKept(ctx, s, l.ctx, l.stream) && ClosingReads(l.ctx, l.stream, r, j)
    ensures ClosingReads(ctx, s, r, j + 1)
  {
    hide Read, DoClose, Play;
    var l := Read(ctx, s);
    PlayOneRead(ctx, s, j + 1);
    SameAnswer(ctx, l.ctx.codec, Some(Received(r)));
    var p, q := Play(ctx, s, Reads(j + 1)), Play(l.ctx, l.stream, Reads(j));
    assert p.results[1..] == q.results;
    assert l.ctx.(codec := q.ctx.codec) == ctx.(codec := q.ctx.codec);
  }

  lemma ClosesAtOnce(ctx: Context, s: Stream, r: CloseReason)
    requires ctx.state.CanRead()
    requires var l := Read(ctx, s);
             && WriteSideKept(ctx, s, l.ctx, l.stream)
             && l.ctx == DoClose(ctx.(codec := l.ctx.codec), Some(Received(r))).0
             && Some(l.result) == OkOf(DoClose(ctx, Some(Received(r))).1)
    ensures ClosingReads(ctx, s, r, 1)
  {
    hide Read, DoClose;
    PlayOneRead(ctx, s, 1);
    assert Reads(0) == [];
    var p := Play(ctx, s, Reads(1));
    assert p.results == [ReadResult(Read(ctx, s))];
    assert p.results[1..] == [];
    CloseIsNoData(ctx, Some(Received(r)));
    assert AllData(p.results) == DataOf(p.results[0]) + AllData(p.results[1..]) == [];
  }

  lemma CloseIsNoData(ctx: Context, reason: Option<CloseReason>)
    requires ctx.state.CanRead()
    ensures var m := DoClose(ctx, reason).1; m.Some? && m.value.Close?
  {
  }

  /** The reads that return the messages in front of a close and leave it to be read. */
  ghost predicate ComesToClose(ctx: Context, s: Stream, messages: seq<Message>, f: Frame, k: nat) {
    var p := Play(ctx, s, Reads(k));
    && k + |p.stream.incoming| <= |messages| + |s.incoming|
    && AllData(p.results) == messages
    && Waiting(p.ctx) && At(p.ctx.codec, p.stream, [], [f]) && OutputKept(ctx, s, p.ctx, p.stream)
  }

  lemma OneMoreRead(ctx: Context, s: Stream, messages: seq<Message>, rest: seq<Message>, f: Frame, j: nat)
    requires var l := Read(ctx, s);
             && WriteSideKept(ctx, s, l.ctx, l.stream) && ComesToClose(l.ctx, l.stream, rest, f, j)
             && messages == DataOf(ReadResult(l)) + rest
             && |rest| + |l.stream.incoming| < |messages| + |s.incoming|
    ensures ComesToClose(ctx, s, messages, f, j + 1)
  {
    hide Read, Play, At, DataOf, ReadResult;
    var l := Read(ctx, s);
    PlayOneRead(ctx, s, j + 1);
    var q := Play(l.ctx, l.stream, Reads(j));
    var results := [ReadResult(l)] + q.results;
    assert results[0] == ReadResult(l) && results[1..] == q.results;
  }

  lemma AtTheClose(ctx: Context, s: Stream, f: Frame)
    requires Waiting(ctx) && At(ctx.codec, s, [], [f])
    ensures ComesToClose(ctx, s, [], f, 0)
  {
    hide At;
    assert Reads(0) == [];
  }

  /** Enough reads deliver the messages in front of a close and come to it. */
  lemma {:induction false} ReadsComeToClose(ctx: Context, s: Stream, frames: seq<Frame>, messages: seq<Message>,
                                            f: Frame)
    returns (k: nat)
    requires Waiting(ctx) && At(ctx.codec, s, [], frames + [f])
    requires CarriesAll(Peer(ctx.role), frames, messages) && AllDeliverable(ctx.config, messages)
    ensures ComesToClose(ctx, s, messages, f, k)
    decreases |messages| + |s.incoming|
  {
    hide Read, At, Carries, Deliverable, ComesToClose;
    if messages == [] {
      k := 0;
      assert frames + [f] == [f];
      AtTheClose(ctx, s, f);
    } else {
      var all := frames + [f];
      assert all[0] == frames[0] && all[1..] == frames[1..] + [f];
      ReadDeliversFirst(ctx, s, [], all, messages[0]);
      var l := Read(ctx, s);
      hide CarriesAll, AllDeliverable;
      var rest := if l.result.Ok? then messages[1..] else messages;
      var j;
      if l.result.Ok? {
        AllTails(ctx.config, Peer(ctx.role), frames, messages);
        j := ReadsComeToClose(l.ctx, l.stream, frames[1..], rest, f);
        assert messages == [messages[0]] + rest;
      } else {
        j := ReadsComeToClose(l.ctx, l.stream, frames, rest, f);
        assert messages == [] + rest;
      }
      OneMoreRead(ctx, s, messages, rest, f, j);
      k := j + 1;
    }
  }

  // ---------------------------------------------------------------- the side that answers

  predicate SameButMask(f: Frame, plain: Frame) {
    f == plain.(header := plain.header.(mask := f.header.mask))
  }

  /** After the peer's close: the reply is pending, or it is the one frame accepted since. */
  ghost predicate Answering(ctx: Context, base: seq<Frame>, reply: Frame) {
    && !ctx.state.CanRead()
    && (|| (ctx.additional.Some? && SameButMask(ctx.additional.value, reply) && ctx.codec.sent == base)
        || (ctx.additional.None? && exists f :: Sends(ctx.role, f, reply) && ctx.codec.sent == base + [f]))
  }

  lemma PreparedReply(role: Role, s: Stream, f: Frame, reply: Frame)
    requires SameButMask(f, reply) && reply.header.mask.None?
    requires role.Server? ==> f.header.mask.None?
    ensures var f' := Prepared(role, s, f).0; Sends(role, f', reply) && SameButMask(f', reply)
  {
  }

  /** A reply that was refused comes back as it was prepared; a server prepares it without a mask. */
  ghost predicate Plainly(ctx: Context) {
    ctx.role.Server? && ctx.additional.Some? ==> ctx.additional.value.header.mask.None?
  }

  lemma WriteInnerAnswers(ctx: Context, s: Stream, base: seq<Frame>, reply: Frame)
    requires Answering(ctx, base, reply) && Plainly(ctx) && reply.header.mask.None?
    ensures var w := WriteInner(ctx, s, None).ctx; Answering(w, base, reply) && Plainly(w)
  {
    hide Buffer, WriteOutBuffer, Sends, SameButMask;
    if ctx.additional.Some? {
      var f, cleared := ctx.additional.value, ctx.(additional := None);
      BufferSends(cleared, s, f);
      BufferFull(cleared, s, f);
      PreparedReply(ctx.role, s, f, reply);
      PreparedPlainly(ctx.role, s, f);
    }
  }

  lemma FlushAnswers(ctx: Context, s: Stream, base: seq<Frame>, reply: Frame)
    requires Answering(ctx, base, reply) && Plainly(ctx) && reply.header.mask.None?
    ensures var w := Flush(ctx, s).ctx; Answering(w, base, reply) && Plainly(w)
  {
    hide WriteInner, WriteOutBuffer, Sends, SameButMask;
    WriteInnerAnswers(ctx, s, base, reply);
  }

  lemma ReadLoopAnswers(ctx: Context, s: Stream, base: seq<Frame>, reply: Frame)
    requires Answering(ctx, base, reply) && Plainly(ctx) && reply.header.mask.None?
    ensures var w := ReadLoop(ctx, s).ctx; Answering(w, base, reply) && Plainly(w)
  {
    hide Flush, ReadFrame, HandleControl, HandleData, Sends, SameButMask;
    FlushAnswers(ctx, s, base, reply);
    var b := BeforeRead(ctx, s);
    if b.result.Ok? {
      var m := ReadMessageFrame(b.ctx, b.stream);
      assert m.ctx == b.ctx.(codec := m.ctx.codec, state := m.ctx.state) && m.result.Err?;
    }
  }

  lemma PerformAnswers(ctx: Context, s: Stream, call: Call, base: seq<Frame>, reply: Frame)
    requires Answering(ctx, base, reply) && Plainly(ctx) && reply.header.mask.None?
    ensures var w := Perform(ctx, s, call).ctx; Answering(w, base, reply) && Plainly(w) && w.role == ctx.role
  {
    hide ReadLoop, Flush, Sends, SameButMask;
    FlushAnswers(ctx, s, base, reply);
    ReadLoopAnswers(ctx, s, base, reply);
  }

  /** Whatever calls follow, the reply is the only frame they can bring out. */
  lemma {:induction false} SessionAnswers(ctx: Context, s: Stream, calls: seq<Call>, base: seq<Frame>, reply: Frame)
    requires Answering(ctx, base, reply) && Plainly(ctx) && reply.header.mask.None?
    ensures var w := Play(ctx, s, calls).ctx; Answering(w, base, reply) && w.role == ctx.role
    decreases calls
  {
    hide Perform, Answering, Plainly;
    if calls != [] {
      PerformAnswers(ctx, s, calls[0], base, reply);
      var first := Perform(ctx, s, calls[0]);
      SessionAnswers(first.ctx, first.stream, calls[1..], base, reply);
    }
  }

  /** Enough bytes will be taken before anything is refused. */
  predicate Willing(writes: seq<WriteEvent>, n: nat)
    decreases writes
  {
    || n == 0
    || (&& writes != [] && writes[0].Accepts? && writes[0].count > 0
        && Willing(writes[1..], n - Min(writes[0].count, n)))
  }

  lemma {:induction false} WillingDrains(output: Bytes, s: Stream)
    requires Willing(s.writes, |output|)
    ensures WriteOut(output, s).output == [] && WriteOut(output, s).failure.None?
    decreases |output|
  {
    if output != [] {
      var n := Min(s.writes[0].count, |output|);
      WillingDrains(output[n..], s.(writes := s.writes[1..], accepted := s.accepted + output[..n]));
    }
  }

  /** With room and a willing stream, one flush hands the reply over. */
  lemma FlushHandsOver(ctx: Context, s: Stream)
    requires !ctx.state.CanRead() && ctx.additional.Some? && HasRoom(ctx, s, ctx.additional.value)
    requires Willing(s.writes, |ctx.codec.output| + Prepared(ctx.role, s, ctx.additional.value).0.Len())
    ensures var w := Flush(ctx, s).ctx; w.additional.None? && w.codec.output == []
  {
    hide WriteOut, Willing, FormatFrame;
    var f' := Prepared(ctx.role, s, ctx.additional.value).0;
    var s' := Prepared(ctx.role, s, ctx.additional.value).1;
    var full := ctx.codec.output + FormatFrame(f');
    FrameLenIsFormatted(f');
    assert s'.writes == s.writes;
    WillingDrains(full, s');
    WillingDrains([], WriteOut(full, s').stream) by { NoneWilling(WriteOut(full, s').stream.writes); }
    assert WriteOut([], WriteOut(full, s').stream).output == [];
  }

  lemma NoneWilling(writes: seq<WriteEvent>)
    ensures Willing(writes, 0)
  {
  }

  // ---------------------------------------------------------------- both sides

  function Flushes(n: nat): seq<Call> {
    seq(n, _ => FlushCall)
  }

  /** A new context writes, closes with a reason and flushes. */
  function Closer(role: Role, config: Config, s: Stream, calls: seq<Call>, reason: CloseReason, flushes: nat): Session {
    var w := Play(NewContext(role, [], config), s, calls);
    var c := Shut(w.ctx, w.stream, Some(reason));
    Play(c.ctx, c.stream, Flushes(flushes))
  }

  /** Its close frame fits the write buffer, and all it wrote has been handed to the stream. */
  predicate HandedOver(role: Role, config: Config, s: Stream, calls: seq<Call>, reason: CloseReason, flushes: nat) {
    var w := Play(NewContext(role, [], config), s, calls);
    && s.accepted == [] && Writing(calls) && HasRoom(w.ctx, w.stream, FrameOf(reason))
    && Closer(role, config, s, calls, reason, flushes).ctx.codec.output == []
  }

  function SentMessages(role: Role, config: Config, s: Stream, calls: seq<Call>): seq<Message> {
    Written(calls, Play(NewContext(role, [], config), s, calls).results)
  }

  /** The reading side as it was. */
  predicate InputKept(ctx: Context, s: Stream, ctx': Context, s': Stream) {
    && ctx'.codec.input == ctx.codec.input && ctx'.codec.announced == ctx.codec.announced
    && ctx'.role == ctx.role && ctx'.config == ctx.config && ctx'.incomplete == ctx.incomplete
    && s'.incoming == s.incoming
  }

  lemma {:induction false} WritingKeepsInput(ctx: Context, s: Stream, calls: seq<Call>)
    requires Idle(ctx) && Writing(calls)
    ensures var w := Play(ctx, s, calls); InputKept(ctx, s, w.ctx, w.stream) && Idle(w.ctx)
    decreases calls
  {
    hide Write, Flush;
    if calls != [] {
      assert calls[0] in calls;
      PerformSendsIdle(ctx, s, calls[0]);
      var first := Perform(ctx, s, calls[0]);
      WritingKeepsInput(first.ctx, first.stream, calls[1..]);
    }
  }

  lemma PerformSendsIdle(ctx: Context, s: Stream, call: Call)
    requires Idle(ctx) && (call.FlushCall? || (call.WriteCall? && IsData(call.message)))
    ensures Idle(Perform(ctx, s, call).ctx)
  {
    hide Buffer, Flush;
    if call.WriteCall? {
      WriteFrameBuffers(ctx, s, MessageFrame(call.message.data, DataOpOf(call.message), true));
    } else {
      FlushSendsNothing(ctx, s);
    }
  }

  lemma {:induction false} FlushesSendNoFrame(ctx: Context, s: Stream, n: nat)
    requires ctx.additional.None? && ctx.state.CanRead()
    ensures var w := Play(ctx, s, Flushes(n));
            && InputKept(ctx, s, w.ctx, w.stream) && w.ctx.additional.None? && w.ctx.state == ctx.state
            && w.ctx.codec.sent == ctx.codec.sent
    decreases n
  {
    hide Flush;
    if n > 0 {
      FlushSendsNoFrame(ctx, s);
      var first := Perform(ctx, s, FlushCall);
      assert Flushes(n)[0] == FlushCall && Flushes(n)[1..] == Flushes(n - 1);
      FlushesSendNoFrame(first.ctx, first.stream, n - 1);
    }
  }

  /** The closing side waits for the answer, and its frames are its messages and the close. */
  lemma CloserSends(role: Role, config: Config, s: Stream, calls: seq<Call>, reason: CloseReason, flushes: nat)
    returns (frames: seq<Frame>, f: Frame)
    requires HandedOver(role, config, s, calls, reason, flushes)
    ensures CarriesAll(role, frames, SentMessages(role, config, s, calls)) && Sends(role, f, FrameOf(reason))
    ensures var a := Closer(role, config, s, calls, reason, flushes);
            && a.ctx.codec.sent == frames + [f] && a.ctx.state.ClosedByUs? && a.ctx.additional.None?
            && InputKept(NewContext(role, [], config), s, a.ctx, a.stream)
            && a.stream.accepted == Formats(frames + [f])
  {
    hide Play, Shut, CarriesAll, HasRoom, Sends, FrameOf, Formats, Written, Writing, Accounts;
    var ctx := NewContext(role, [], config);
    var w := Play(ctx, s, calls);
    WritesSend(ctx, s, calls, []) by { assert CarriesAll(role, [], []) by { NothingCarried(role); } }
    assert [] + Written(calls, w.results) == Written(calls, w.results);
    WritingKeepsInput(ctx, s, calls);
    frames := w.ctx.codec.sent;
    CloseSends(w.ctx, w.stream, reason);
    var c := Shut(w.ctx, w.stream, Some(reason));
    f :| c.ctx.codec.sent == frames + [f] && Sends(role, f, FrameOf(reason));
    FlushesSendNoFrame(c.ctx, c.stream, flushes);
    CloserConserves(role, config, s, calls, reason, flushes);
  }

  lemma NothingCarried(role: Role)
    ensures CarriesAll(role, [], [])
  {
  }

  lemma CloserConserves(role: Role, config: Config, s: Stream, calls: seq<Call>, reason: CloseReason, flushes: nat)
    requires s.accepted == []
    ensures var a := Closer(role, config, s, calls, reason, flushes);
            a.ctx.codec.output == [] ==> a.stream.accepted == Formats(a.ctx.codec.sent)
  {
    hide Play, Shut;
    var ctx := NewContext(role, [], config);
    assert Accounts([], ctx, s);
    SessionConservesOutput([], ctx, s, calls);
    var w := Play(ctx, s, calls);
    ShutAccounts([], w.ctx, w.stream, Some(reason));
    var c := Shut(w.ctx, w.stream, Some(reason));
    SessionConservesOutput([], c.ctx, c.stream, Flushes(flushes));
    var a := Play(c.ctx, c.stream, Flushes(flushes));
    assert a.stream.accepted + [] == a.stream.accepted;
    assert [] + Formats(a.ctx.codec.sent) == Formats(a.ctx.codec.sent);
  }

  /** A new peer that reads what the closing side wrote, in any cut. */
  predicate Hears(role: Role, config: Config, s: Stream, calls: seq<Call>, reason: CloseReason, flushes: nat,
                  peerConfig: Config, early: Bytes, ps: Stream) {
    && HandedOver(role, config, s, calls, reason, flushes)
    && ps.accepted == [] && Steady(ps.incoming)
    && early + Arriving(ps.incoming) == Closer(role, config, s, calls, reason, flushes).stream.accepted
    && AllDeliverable(peerConfig, SentMessages(role, config, s, calls)) && Receivable(peerConfig, reason)
  }

  function PeerReads(role: Role, peerConfig: Config, early: Bytes, ps: Stream, k: nat): Session {
    Play(NewContext(Peer(role), early, peerConfig), ps, Reads(k))
  }

  /** What reading the close leaves the peer with. */
  ghost predicate OwesEcho(b: Session, role: Role, peerConfig: Config, ps: Stream, reason: CloseReason) {
    && b.ctx.state.ClosedByPeer? && b.ctx.role == Peer(role) && b.ctx.config == peerConfig
    && b.ctx.additional == Some(FrameOf(Echo(reason)))
    && b.ctx.codec.sent == [] && b.ctx.codec.output == []
    && b.stream == ps.(incoming := b.stream.incoming)
  }

  lemma DoCloseActive(ctx: Context, r: CloseReason)
    requires ctx.state.Active? && ctx.additional.None?
    ensures DoClose(ctx, Some(Received(r)))
         == (ctx.(state := ClosedByPeer, additional := Some(FrameOf(Echo(r)))), Some(Message.Close(Some(Echo(r)))))
  {
    hide BigEndian, CloseCodeOf;
  }

  /** An idle reader meets the close behind the messages. */
  lemma ReaderMeetsClose(peer: Context, ps: Stream, frames: seq<Frame>, messages: seq<Message>, f: Frame,
                         reason: CloseReason)
    returns (k: nat)
    requires Waiting(peer) && At(peer.codec, ps, [], frames + [f])
    requires CarriesAll(Peer(peer.role), frames, messages) && AllDeliverable(peer.config, messages)
    requires Sends(Peer(peer.role), f, FrameOf(reason)) && Receivable(peer.config, reason)
    ensures 0 < k <= |messages| + |ps.incoming| + 1
    ensures var b := Play(peer, ps, Reads(k));
            && AllData(b.results) == messages
            && b.results[k - 1] == Ok(Some(Message.Close(Some(Echo(reason)))))
            && b.ctx.state.ClosedByPeer? && b.ctx.additional == Some(FrameOf(Echo(reason)))
            && OutputKept(peer, ps, b.ctx, b.stream)
  {
    hide Play, Sends, FrameOf, Receivable, Echo, At, CarriesAll, AllDeliverable, DoClose;
    var k1 := ReadsComeToClose(peer, ps, frames, messages, f);
    var p := Play(peer, ps, Reads(k1));
    var k2 := ReadsMeetClose(p.ctx, p.stream, f, reason);
    k := k1 + k2;
    var q := Play(p.ctx, p.stream, Reads(k2));
    DoCloseActive(p.ctx, reason);
    DoCloseActive(p.ctx.(codec := q.ctx.codec), reason);
    ReadsInTurn(peer, ps, k1, k2);
  }

  /**
   The close arrives: enough reads of the peer return the messages written before it and then the Close,
   with the initiator's code and reason if that code may be sent, and leave the echo pending.
   */
  lemma CloseReachesPeer(role: Role, config: Config, s: Stream, calls: seq<Call>, reason: CloseReason, flushes: nat,
                         peerConfig: Config, early: Bytes, ps: Stream) returns (k: nat)
    requires Hears(role, config, s, calls, reason, flushes, peerConfig, early, ps)
    ensures 0 < k <= |SentMessages(role, config, s, calls)| + |ps.incoming| + 1
    ensures var b := PeerReads(role, peerConfig, early, ps, k);
            && AllData(b.results) == SentMessages(role, config, s, calls)
            && b.results[k - 1] == Ok(Some(Message.Close(Some(Echo(reason)))))
            && OwesEcho(b, role, peerConfig, ps, reason)
  {
    hide Play, HandedOver, Closer, SentMessages, Sends, FrameOf, Receivable, Echo, Formats, At, CarriesAll,
         AllDeliverable, Steady;
    var frames, f := CloserSends(role, config, s, calls, reason, flushes);
    var peer := NewContext(Peer(role), early, peerConfig);
    PeerStarts(early, ps, frames + [f], peer);
    k := ReaderMeetsClose(peer, ps, frames, SentMessages(role, config, s, calls), f, reason);
  }

  lemma PeerStarts(early: Bytes, ps: Stream, frames: seq<Frame>, peer: Context)
    requires peer.codec.input == early && peer.codec.announced.None?
    requires early + Arriving(ps.incoming) == Formats(frames) && Steady(ps.incoming)
    ensures At(peer.codec, ps, [], frames)
  {
    assert Arriving(ps.incoming) + [] == Arriving(ps.incoming);
  }

  lemma ReadsInTurn(ctx: Context, s: Stream, a: nat, b: nat)
    ensures var p := Play(ctx, s, Reads(a));
            var q := Play(p.ctx, p.stream, Reads(b));
            var all := Play(ctx, s, Reads(a + b));
            && all == Session(q.ctx, q.stream, p.results + q.results)
            && AllData(all.results) == AllData(p.results) + AllData(q.results)
  {
    hide Play;
    var calls := Reads(a + b);
    assert calls[..a] == Reads(a) && calls[a..] == Reads(b);
    PlaySplit(ctx, s, calls, a);
    var p := Play(ctx, s, Reads(a));
    AllDataAppend(p.results, Play(p.ctx, p.stream, Reads(b)).results);
  }

  lemma {:induction false} AllDataAppend(x: seq<Result<Option<Message>>>, y: seq<Result<Option<Message>>>)
    ensures AllData(x + y) == AllData(x) + AllData(y)
  {
    hide DataOf;
    if x == [] {
      assert x + y == y;
    } else {
      assert (x + y)[0] == x[0] && (x + y)[1..] == x[1..] + y;
      AllDataAppend(x[1..], y);
    }
  }

  lemma EchoReadsBack(r: CloseReason)
    ensures Received(Echo(r)) == Echo(r)
  {
    hide CloseCodeOf;
    assert CloseCodeOf(1002) == CloseCode.Protocol by { ProtocolCode(); }
  }

  lemma ProtocolCode()
    ensures CloseCodeOf(1002) == CloseCode.Protocol
  {
  }

  lemma DoCloseAnswered(ctx: Context, r: CloseReason)
    requires ctx.state.ClosedByUs?
    ensures DoClose(ctx, Some(r)) == (ctx.(state := CloseAcknowledged), Some(Message.Close(Some(r))))
  {
  }

  /** Once the peer's reply is out of its hands, its stream has taken the echo and nothing else. */
  lemma EchoIsOut(b: Session, role: Role, peerConfig: Config, ps: Stream, reason: CloseReason, more: seq<Call>)
    returns (f: Frame)
    requires OwesEcho(b, role, peerConfig, ps, reason) && ps.accepted == []
    requires |b.ctx.codec.output| <= b.ctx.codec.maxOutput
    requires var after := Play(b.ctx, b.stream, more); after.ctx.additional.None? && after.ctx.codec.output == []
    ensures Sends(Peer(role), f, FrameOf(Echo(reason)))
    ensures Play(b.ctx, b.stream, more).stream.accepted == Formats([f])
  {
    hide Play, Sends, FrameOf, Echo, Formats;
    var after := Play(b.ctx, b.stream, more);
    var reply := FrameOf(Echo(reason));
    ClosePayload(Echo(reason));
    SessionAnswers(b.ctx, b.stream, more, [], reply);
    f :| Sends(Peer(role), f, reply) && after.ctx.codec.sent == [] + [f];
    assert Accounts([], b.ctx, b.stream) by { NothingSent(); }
    SessionConservesOutput([], b.ctx, b.stream, more);
    assert after.stream.accepted + [] == after.stream.accepted;
    assert [] + Formats(after.ctx.codec.sent) == Formats(after.ctx.codec.sent) && [] + [f] == [f];
  }

  lemma NothingSent()
    ensures Formats([]) == []
  {
  }

  /**
   And the echo comes back: whatever calls the peer makes, once its reply is out of its hands, enough reads
   of the initiator return the echo, and the close is acknowledged.
   */
  lemma EchoReachesInitiator(role: Role, config: Config, s: Stream, calls: seq<Call>, reason: CloseReason, flushes: nat,
                             peerConfig: Config, early: Bytes, ps: Stream, k: nat, more: seq<Call>) returns (j: nat)
    requires Hears(role, config, s, calls, reason, flushes, peerConfig, early, ps)
    requires OwesEcho(PeerReads(role, peerConfig, early, ps, k), role, peerConfig, ps, reason)
    requires var b := PeerReads(role, peerConfig, early, ps, k);
             var after := Play(b.ctx, b.stream, more);
             var a := Closer(role, config, s, calls, reason, flushes);
             && after.ctx.additional.None? && after.ctx.codec.output == []
             && Steady(a.stream.incoming) && Arriving(a.stream.incoming) == after.stream.accepted
             && Receivable(config, Echo(reason))
    ensures var a := Closer(role, config, s, calls, reason, flushes);
            var e := Play(a.ctx, a.stream, Reads(j));
            && 0 < j <= |a.stream.incoming| + 1
            && e.results[j - 1] == Ok(Some(Message.Close(Some(Echo(reason)))))
            && e.ctx.state.CloseAcknowledged?
  {
    hide Play, Closer, SentMessages, Sends, FrameOf, Receivable, Echo, Received, Formats, At, Steady, CarriesAll,
         HandedOver, DoClose, ReadClose;
    var frames, _ := CloserSends(role, config, s, calls, reason, flushes);
    var a := Closer(role, config, s, calls, reason, flushes);
    var b := PeerReads(role, peerConfig, early, ps, k);
    var f := EchoIsOut(b, role, peerConfig, ps, reason, more);
    assert [] + Arriving(a.stream.incoming) == Arriving(a.stream.incoming);
    PeerStarts([], a.stream, [f], a.ctx);
    j := ReadsMeetClose(a.ctx, a.stream, f, Echo(reason));
    EchoReadsBack(reason);
    DoCloseAnswered(a.ctx, Echo(reason));
    var e := Play(a.ctx, a.stream, Reads(j));
    DoCloseAnswered(a.ctx.(codec := e.ctx.codec), Echo(reason));
  }

  // ---------------------------------------------------------------- a reply that is dropped

  const SILENT := Stream([], [], [], [], [])

  lemma AllRead(c: Codec)
    requires At(c, SILENT, [], [])
    ensures c.input == [] && c.announced.None?
  {
  }

  /**
   A run in which the end of a connection loses the reply: a new server holds the bytes of the peer's close,
   and its stream takes nothing.  The first read returns the Close, the second blocks, and the third reports
   a clean close with the reply still in the buffer.
   */
  lemma ServerDropsReply(config: Config, f: Frame, reason: CloseReason)
    requires Sends(Client, f, FrameOf(reason)) && Receivable(config, reason)
    requires FrameOf(Echo(reason)).Len() <= config.maxWriteBufferSize
    ensures var r := Play(NewContext(Server, FormatFrame(f), config), SILENT, Reads(3));
            && r.results == [Ok(Some(Message.Close(Some(Echo(reason))))), Err(Io(WouldBlock)), Err(ConnectionClosed)]
            && r.stream.accepted == [] && r.ctx.codec.output == FormatFrame(FrameOf(Echo(reason)))
  {
    hide Read, FormatFrame, FrameOf, Echo, Sends, Receivable, DoClose, Received, Play;
    var ctx := NewContext(Server, FormatFrame(f), config);
    OneFrameAt(ctx, f);
    ReadMeetsClose(ctx, SILENT, f, reason);
    var first := Read(ctx, SILENT);
    DoCloseActive(ctx, reason);
    DoCloseActive(ctx.(codec := first.ctx.codec), reason);
    assert first.stream.incoming == [];
    assert first.stream == SILENT;
    AllRead(first.ctx.codec);
    var reply := FrameOf(Echo(reason));
    ServerHasRoom(first.ctx, SILENT, reply);
    BlockedServerDrops(first.ctx, SILENT);
    var second := Read(first.ctx, SILENT);
    assert [] + FormatFrame(reply) == FormatFrame(reply);
    PlayOneRead(ctx, SILENT, 3);
    PlayOneRead(first.ctx, first.stream, 2);
    PlayOneRead(second.ctx, second.stream, 1);
    var third := Read(second.ctx, second.stream);
    NoMoreReads(third.ctx, third.stream);
  }

  lemma OneFrameAt(ctx: Context, f: Frame)
    requires ctx.codec.input == FormatFrame(f) && ctx.codec.announced.None?
    ensures At(ctx.codec, SILENT, [], [f])
  {
    hide FormatFrame;
    assert [f][1..] == [];
    assert Formats([f]) == FormatFrame(f) + Formats([f][1..]) == FormatFrame(f);
    assert ctx.codec.input + (Arriving(SILENT.incoming) + []) == FormatFrame(f);
  }

  lemma ServerHasRoom(ctx: Context, s: Stream, f: Frame)
    requires ctx.role.Server? && ctx.codec.output == [] && f.Len() <= ctx.codec.maxOutput
    ensures HasRoom(ctx, s, f)
  {
  }

  lemma NoMoreReads(ctx: Context, s: Stream)
    ensures Play(ctx, s, Reads(0)) == Session(ctx, s, [])
  {
    assert Reads(0) == [];
  }

  /**
   And a run in which a full buffer loses it: the reply is longer than the write buffer may get.  The first
   read returns the Close, the second reports a clean close, and nothing was ever sent.
   */
  lemma ServerCannotReply(config: Config, f: Frame, reason: CloseReason)
    requires config.Valid() && Sends(Client, f, FrameOf(reason)) && Receivable(config, reason)
    requires FrameOf(Echo(reason)).Len() > config.maxWriteBufferSize
    ensures var r := Play(NewContext(Server, FormatFrame(f), config), SILENT, Reads(2));
            && r.results == [Ok(Some(Message.Close(Some(Echo(reason))))), Err(ConnectionClosed)]
            && r.stream.accepted == [] && r.ctx.codec.sent == [] && r.ctx.codec.output == []
            && r.ctx.additional == Some(FrameOf(Echo(reason))) && r.ctx.state.Terminated?
  {
    hide Read, FormatFrame, FrameOf, Echo, Sends, Receivable, DoClose, Received, Play;
    var ctx := NewContext(Server, FormatFrame(f), config);
    OneFrameAt(ctx, f);
    ReadMeetsClose(ctx, SILENT, f, reason);
    var first := Read(ctx, SILENT);
    DoCloseActive(ctx, reason);
    DoCloseActive(ctx.(codec := first.ctx.codec), reason);
    assert first.stream.incoming == [];
    assert first.stream == SILENT;
    NoRoomForReply(first.ctx, SILENT, FrameOf(Echo(reason)));
    NothingToWrite(SILENT);
    FullServerDrops(first.ctx, SILENT);
    var second := Read(first.ctx, SILENT);
    PlayOneRead(ctx, SILENT, 2);
    PlayOneRead(first.ctx, first.stream, 1);
    NoMoreReads(second.ctx, second.stream);
  }

  lemma NoRoomForReply(ctx: Context, s: Stream, f: Frame)
    requires ctx.role.Server? && ctx.codec.output == [] && f.Len() > ctx.codec.maxOutput
    ensures !HasRoom(ctx, s, f)
  {
  }
}
