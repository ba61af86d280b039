/**
 End to end: what one side of a connection writes is what the other side reads, through the output buffer,
 the wire and any cut of the bytes into reads.
 */
module EndToEnd {
  import opened Base
  import opened Coding
  import opened Masking
  import opened Frames
  import opened Streams
  import opened Codecs
  import opened Utf8Text
  import opened Messages
  import opened Contexts
  import opened Sessions
  import opened Reading

  predicate IsData(m: Message) {
    m.Text? || m.Binary?
  }

  function DataOpOf(m: Message): DataOp
    requires IsData(m)
  {
    if m.Text? then DataOp.Text else DataOp.Binary
  }

  /** `f` is the one frame in which a writer of this role sends `m`: masked exactly by a client. */
  predicate Carries(writer: Role, f: Frame, m: Message) {
    && IsData(m)
    && f == Frame(DEFAULT_HEADER.(opcode := Data(DataOpOf(m)), mask := f.header.mask), m.data)
    && (f.header.mask.Some? <==> writer.Client?)
  }

  predicate CarriesAll(writer: Role, frames: seq<Frame>, messages: seq<Message>) {
    |frames| == |messages| && forall i | 0 <= i < |frames| :: Carries(writer, frames[i], messages[i])
  }

  /** Within the reader's limits; text is text. */
  predicate Deliverable(config: Config, m: Message) {
    && IsData(m)
    && |m.data| <= config.MessageLimit() && |m.data| <= config.FrameLimit() && |m.data| < USIZE_LIMIT
    && (m.Text? ==> WellFormed(m.data))
  }

  predicate AllDeliverable(config: Config, messages: seq<Message>) {
    forall i | 0 <= i < |messages| :: Deliverable(config, messages[i])
  }

  function Peer(role: Role): Role {
    if role.Client? then Server else Client
  }

  // ---------------------------------------------------------------- the writer

  predicate Idle(ctx: Context) {
    ctx.state.Active? && ctx.additional.None?
  }

  predicate Full<T>(r: Result<T>) {
    r.Err? && r.error.WriteBufferFull?
  }

  lemma BufferSends(ctx: Context, s: Stream, f: Frame)
    ensures var r := Buffer(ctx, s, f);
            r.ctx.codec.sent == if Full(r.result) then ctx.codec.sent else ctx.codec.sent + [Prepared(ctx.role, s, f).0]
  {
    hide FormatFrame, WriteOut;
  }

  /** A refused frame comes back as it was prepared. */
  lemma BufferFull(ctx: Context, s: Stream, f: Frame)
    ensures var b := Buffer(ctx, s, f);
            Full(b.result) ==> b.ctx == ctx && b.result.error.frame == Prepared(ctx.role, s, f).0
  {
    hide FormatFrame, WriteOut;
  }

  lemma PreparedPlainly(role: Role, s: Stream, f: Frame)
    ensures role.Server? ==> Prepared(role, s, f).0 == f
  {
  }

  lemma PreparedCarries(role: Role, s: Stream, m: Message)
    requires IsData(m)
    ensures Carries(role, Prepared(role, s, MessageFrame(m.data, DataOpOf(m), true)).0, m)
  {
  }

  /** With no reply pending and no close under way, writing a frame is buffering it. */
  lemma WriteFrameBuffers(ctx: Context, s: Stream, f: Frame)
    requires Idle(ctx)
    ensures WriteFrame(ctx, s, f) == Buffer(ctx, s, f)
  {
    hide Buffer;
    var b := Buffer(ctx, s, f);
    if b.result.Ok? {
      assert SendAdditional(b.ctx, b.stream) == Step(b.ctx, b.stream, Ok(false));
      assert b.result.value == ();
    }
  }

  /** A data write leaves the connection as it was, with the message's one frame accepted unless refused. */
  lemma WriteSends(ctx: Context, s: Stream, m: Message, messages: seq<Message>)
    requires Idle(ctx) && IsData(m) && CarriesAll(ctx.role, ctx.codec.sent, messages)
    ensures var r := Write(ctx, s, m);
            && Idle(r.ctx) && r.ctx.role == ctx.role
            && CarriesAll(ctx.role, r.ctx.codec.sent, if Full(r.result) then messages else messages + [m])
  {
    hide Buffer, Carries, Prepared, WriteOutBuffer;
    var f := MessageFrame(m.data, DataOpOf(m), true);
    BufferSends(ctx, s, f);
    PreparedCarries(ctx.role, s, m);
    WriteFrameBuffers(ctx, s, f);
  }

  lemma FlushSendsNothing(ctx: Context, s: Stream)
    requires Idle(ctx)
    ensures var r := Flush(ctx, s);
            Idle(r.ctx) && r.ctx.role == ctx.role && r.ctx.codec.sent == ctx.codec.sent && !Full(r.result)
  {
    hide Buffer, WriteOut;
  }

  predicate Writing(calls: seq<Call>) {
    forall c | c in calls :: c.FlushCall? || (c.WriteCall? && IsData(c.message))
  }

  /** The messages whose write was not refused for want of room. */
  function Written(calls: seq<Call>, results: seq<Result<Option<Message>>>): seq<Message>
    requires |calls| == |results|
  {
    if calls == [] then []
    else (if calls[0].WriteCall? && !Full(results[0]) then [calls[0].message] else [])
         + Written(calls[1..], results[1..])
  }

  lemma PerformSends(ctx: Context, s: Stream, call: Call, messages: seq<Message>)
    requires Idle(ctx) && CarriesAll(ctx.role, ctx.codec.sent, messages)
    requires call.FlushCall? || (call.WriteCall? && IsData(call.message))
    ensures var r := Perform(ctx, s, call);
            && Idle(r.ctx) && r.ctx.role == ctx.role
            && CarriesAll(ctx.role, r.ctx.codec.sent,
                          messages + if call.WriteCall? && !Full(r.result) then [call.message] else [])
  {
    hide Write, Flush, CarriesAll;
    assert messages + [] == messages;
    if call.WriteCall? {
      WriteSends(ctx, s, call.message, messages);
    } else {
      FlushSendsNothing(ctx, s);
    }
  }

  lemma {:induction false} WritesSend(ctx: Context, s: Stream, calls: seq<Call>, messages: seq<Message>)
    requires Idle(ctx) && CarriesAll(ctx.role, ctx.codec.sent, messages) && Writing(calls)
    ensures var r := Play(ctx, s, calls);
            CarriesAll(ctx.role, r.ctx.codec.sent, messages + Written(calls, r.results))
    decreases calls
  {
    hide Perform, CarriesAll;
    if calls == [] {
      assert messages + [] == messages;
    } else {
      assert calls[0] in calls;
      PerformSends(ctx, s, calls[0], messages);
      var first := Perform(ctx, s, calls[0]);
      var one := if calls[0].WriteCall? && !Full(first.result) then [calls[0].message] else [];
      WritesSend(first.ctx, first.stream, calls[1..], messages + one);
      var others := Play(first.ctx, first.stream, calls[1..]).results;
      assert Play(ctx, s, calls).results[1..] == others;
      assert messages + (one + Written(calls[1..], others)) == messages + one + Written(calls[1..], others);
    }
  }

  // ---------------------------------------------------------------- the wire

  predicate Fits(f: Frame, limit: nat) {
    !f.header.opcode.IsReserved() && |f.payload| <= limit && |f.payload| < USIZE_LIMIT
  }

  /** From here on, the bytes are those of `frames`, the first header already read if one is announced. */
  predicate Wire(announced: Option<Announced>, bytes: Bytes, frames: seq<Frame>) {
    match announced
    case None => bytes == Formats(frames)
    case Some(Announced(h, length)) =>
      && frames != [] && h == frames[0].header && length == |frames[0].payload|
      && bytes == OnTheWire(frames[0]).payload + Formats(frames[1..])
  }

  lemma MaskedLength(f: Frame)
    ensures |OnTheWire(f).payload| == |f.payload| && OnTheWire(f).header == f.header
    ensures FormatFrame(f) == FormatHeader(f.header, |f.payload|) + OnTheWire(f).payload
  {
    hide Xor;
  }

  /** The payload of an announced frame is taken exactly when all of it is there. */
  lemma TakePayloadOnWire(c: Codec, more: Bytes, frames: seq<Frame>, limit: nat)
    requires c.announced.Some? && Wire(c.announced, c.input + more, frames) && Fits(frames[0], limit)
    ensures var t := TakePayload(c, limit);
            if |frames[0].payload| <= |c.input|
            then
              && t.Whole? && t.frame == OnTheWire(frames[0])
              && Wire(t.codec.announced, t.codec.input + more, frames[1..])
            else t == Short(c)
  {
    hide FormatFrame, OnTheWire;
    var length := |frames[0].payload|;
    MaskedLength(frames[0]);
    if length <= |c.input| {
      var all := c.input + more;
      assert c.input[..length] == all[..length] == OnTheWire(frames[0]).payload;
      assert c.input[length..] + more == all[length..] == Formats(frames[1..]);
    }
  }

  /** Bytes that begin formatted frames parse to the first header or to nothing yet. */
  lemma HeaderOnWire(input: Bytes, more: Bytes, frames: seq<Frame>, limit: nat)
    requires input + more == Formats(frames) && (frames != [] ==> Fits(frames[0], limit))
    ensures var p := ParseHeader(input);
            || p.NeedMore?
            || (&& p.Parsed? && frames != []
                && p.header == frames[0].header && p.length == |frames[0].payload|
                && input[p.consumed..] + more == OnTheWire(frames[0]).payload + Formats(frames[1..]))
    ensures ParseHeader(input).NeedMore? && more == [] ==> frames == []
  {
    hide ParseHeader, OnTheWire, FormatFrame, FormatHeader, HeaderLen;
    ParseStable(input, more);
    if frames == [] {
      assert input == [] && more == [];
      assert ParseHeader([]).NeedMore? by { EmptyNeedsMore(); }
    } else {
      var f := frames[0];
      MaskedLength(f);
      var tail := OnTheWire(f).payload + Formats(frames[1..]);
      HeaderRoundTrip(f.header, |f.payload|, tail);
      var n := HeaderLen(f.header, |f.payload|);
      assert input + more == FormatHeader(f.header, |f.payload|) + tail;
      if more == [] {
        assert input + more == input;
      }
      if !ParseHeader(input).NeedMore? {
        assert input[n..] + more == (input + more)[n..] == tail;
      }
    }
  }

  lemma EmptyNeedsMore()
    ensures ParseHeader([]).NeedMore?
  {
  }

  /** One attempt on the wire never fails: the next frame, or nothing yet and nothing lost. */
  lemma TakeFrameOnWire(c: Codec, more: Bytes, frames: seq<Frame>, limit: nat)
    requires Wire(c.announced, c.input + more, frames) && (frames != [] ==> Fits(frames[0], limit))
    ensures var t := TakeFrame(c, limit);
            || (t.Short? && Wire(t.codec.announced, t.codec.input + more, frames) && (more == [] ==> frames == []))
            || (&& t.Whole? && frames != [] && t.frame == OnTheWire(frames[0])
                && Wire(t.codec.announced, t.codec.input + more, frames[1..]))
  {
    hide ParseHeader, OnTheWire, Formats;
    if frames != [] {
      MaskedLength(frames[0]);
    }
    if more == [] {
      assert c.input + more == c.input;
    }
    if c.announced.Some? {
      TakePayloadOnWire(c, more, frames, limit);
    } else {
      HeaderOnWire(c.input, more, frames, limit);
      var p := ParseHeader(c.input);
      if p.Parsed? {
        var c' := c.(input := c.input[p.consumed..], announced := Some(Announced(p.header, p.length)));
        if more == [] {
          assert c'.input + more == c'.input;
        }
        TakePayloadOnWire(c', more, frames, limit);
      }
    }
  }

  /** Reads bring bytes or would block; the stream neither ends nor breaks. */
  predicate Steady(incoming: seq<ReadEvent>) {
    forall e | e in incoming :: if e.Chunk? then e.data != [] else e.kind.WouldBlock?
  }

  /** The reader's place: `missing` has not been handed to the stream yet. */
  predicate At(c: Codec, s: Stream, missing: Bytes, frames: seq<Frame>) {
    Wire(c.announced, c.input + (Arriving(s.incoming) + missing), frames) && Steady(s.incoming)
  }

  lemma SteadyTail(incoming: seq<ReadEvent>)
    requires incoming != [] && Steady(incoming)
    ensures Steady(incoming[1..])
    ensures if incoming[0].Chunk? then incoming[0].data != [] else incoming[0].kind.WouldBlock?
  {
    assert incoming[0] in incoming;
  }

  /** No byte more is to come. */
  predicate Exhausted(s: Stream, missing: Bytes) {
    Arriving(s.incoming) + missing == []
  }

  lemma {:induction false} ReadFrameOnWire(c: Codec, s: Stream, missing: Bytes, frames: seq<Frame>, limit: nat)
    requires At(c, s, missing, frames) && (frames != [] ==> Fits(frames[0], limit))
    ensures var r := ReadFrame(c, s, limit);
            || (&& r.result == Err(Io(WouldBlock)) && At(r.codec, r.stream, missing, frames)
                && (|r.stream.incoming| < |s.incoming| || r.stream.incoming == [])
                && (Exhausted(r.stream, missing) ==> frames == []))
            || (&& frames != [] && r.result == Ok(Some(OnTheWire(frames[0])))
                && At(r.codec, r.stream, missing, frames[1..]) && |r.stream.incoming| <= |s.incoming|)
    decreases |s.incoming|
  {
    hide TakeFrame, Wire, OnTheWire, Steady, Fits;
    var more := Arriving(s.incoming) + missing;
    TakeFrameOnWire(c, more, frames, limit);
    var t := TakeFrame(c, limit);
    if t.Short? {
      if s.incoming == [] {
        assert more == missing;
      } else {
        SteadyTail(s.incoming);
        var s' := s.(incoming := s.incoming[1..]);
        var more' := Arriving(s'.incoming) + missing;
        if s.incoming[0].Chunk? {
          var data := s.incoming[0].data;
          assert t.codec.input + more == t.codec.input + data + more';
          ReadFrameOnWire(t.codec.(input := t.codec.input + data), s', missing, frames, limit);
        } else {
          assert more == more';
        }
      }
    }
  }

  // ---------------------------------------------------------------- the reader

  predicate Waiting(ctx: Context) {
    Idle(ctx) && ctx.incomplete.None?
  }

  lemma WholeTextCollects(data: Bytes)
    requires WellFormed(data)
    ensures ExtendText(EMPTY_COLLECTOR, data) == Extended(Collector(data, None), true)
  {
    hide Decode, LeadOf, ExtendText;
    assert CollectorOf([]) == Some(EMPTY_COLLECTOR) by { EmptyCollects(true); }
    ExtendTextCollects([], EMPTY_COLLECTOR, data);
    assert [] + data == data;
    WholeIsWellFormed(data);
  }

  lemma WholeMessageHandled(ctx: Context, m: Message)
    requires ctx.incomplete.None? && Deliverable(ctx.config, m)
    ensures HandleData(ctx, MessageFrame(m.data, DataOpOf(m), true)) == Handled(ctx, Ok(Some(m)))
  {
    hide ExtendText;
    if m.Text? {
      WholeTextCollects(m.data);
    } else {
      assert [] + m.data == m.data;
    }
  }

  /** A carrying frame, as it comes off the wire, is the message. */
  lemma CarriedHandled(ctx: Context, f: Frame, m: Message)
    requires ctx.state.CanRead() && ctx.incomplete.None?
    requires Deliverable(ctx.config, m) && Carries(Peer(ctx.role), f, m)
    ensures HandleFrame(ctx, OnTheWire(f)) == Handled(ctx, Ok(Some(m)))
    ensures Fits(f, ctx.config.FrameLimit())
  {
    hide HandleData, Masked;
    UnmaskOnTheWire(f);
    WholeMessageHandled(ctx, m);
    var plain := MessageFrame(m.data, DataOpOf(m), true);
    assert f.(header := f.header.(mask := None)) == plain;
  }

  lemma DeliverableIsData(config: Config, m: Message)
    requires Deliverable(config, m)
    ensures IsData(m)
  {
  }

  /** One read, when the next frame carries `m`. */
  lemma ReadDeliversFirst(ctx: Context, s: Stream, missing: Bytes, frames: seq<Frame>, m: Message)
    requires Waiting(ctx) && At(ctx.codec, s, missing, frames) && frames != []
    requires Carries(Peer(ctx.role), frames[0], m) && Deliverable(ctx.config, m)
    ensures var r := Read(ctx, s);
            && Waiting(r.ctx) && WriteSideKept(ctx, s, r.ctx, r.stream)
            && (|| (&& r.result == Err(Io(WouldBlock)) && At(r.ctx.codec, r.stream, missing, frames)
                    && (|r.stream.incoming| < |s.incoming| || r.stream.incoming == [])
                    && !Exhausted(r.stream, missing))
                || (&& r.result == Ok(m) && IsData(m)
                    && At(r.ctx.codec, r.stream, missing, frames[1..]) && |r.stream.incoming| <= |s.incoming|))
  {
    hide ReadFrame, HandleFrame, At, Carries, Deliverable, OnTheWire, Fits;
    DeliverableIsData(ctx.config, m);
    CarriedHandled(ctx, frames[0], m);
    var raw := ReadFrame(ctx.codec, s, ctx.config.FrameLimit());
    ReadFrameOnWire(ctx.codec, s, missing, frames, ctx.config.FrameLimit());
    if raw.result.Ok? {
      CarriedHandled(ctx.(codec := raw.codec), frames[0], m);
    }
  }

  /** One read, when all that was written has been read. */
  lemma ReadFindsNothing(ctx: Context, s: Stream, missing: Bytes)
    requires Waiting(ctx) && At(ctx.codec, s, missing, [])
    ensures var r := Read(ctx, s);
            && Waiting(r.ctx) && WriteSideKept(ctx, s, r.ctx, r.stream)
            && r.result == Err(Io(WouldBlock)) && At(r.ctx.codec, r.stream, missing, [])
            && (|r.stream.incoming| < |s.incoming| || r.stream.incoming == [])
  {
    hide ReadFrame, HandleFrame, At;
    ReadFrameOnWire(ctx.codec, s, missing, [], ctx.config.FrameLimit());
  }

  /** One read: the next message, or nothing yet. */
  lemma ReadDelivers(ctx: Context, s: Stream, missing: Bytes, frames: seq<Frame>, messages: seq<Message>)
    requires Waiting(ctx) && At(ctx.codec, s, missing, frames)
    requires CarriesAll(Peer(ctx.role), frames, messages) && AllDeliverable(ctx.config, messages)
    ensures var r := Read(ctx, s);
            && Waiting(r.ctx) && r.ctx.role == ctx.role && r.ctx.config == ctx.config && |frames| == |messages|
            && (|| (&& r.result == Err(Io(WouldBlock)) && At(r.ctx.codec, r.stream, missing, frames)
                    && (|r.stream.incoming| < |s.incoming| || r.stream.incoming == [])
                    && (Exhausted(r.stream, missing) ==> frames == []))
                || (&& messages != [] && r.result == Ok(messages[0]) && IsData(messages[0])
                    && At(r.ctx.codec, r.stream, missing, frames[1..]) && |r.stream.incoming| <= |s.incoming|))
  {
    hide Read, At, Carries, Deliverable;
    if messages == [] {
      ReadFindsNothing(ctx, s, missing);
    } else {
      ReadDeliversFirst(ctx, s, missing, frames, messages[0]);
    }
  }

  function Reads(n: nat): seq<Call> {
    seq(n, _ => ReadCall)
  }

  lemma AllTails(config: Config, writer: Role, frames: seq<Frame>, messages: seq<Message>)
    requires messages != [] && CarriesAll(writer, frames, messages) && AllDeliverable(config, messages)
    ensures frames != [] && CarriesAll(writer, frames[1..], messages[1..]) && AllDeliverable(config, messages[1..])
  {
    hide Carries, Deliverable;
  }

  predicate AllSmooth(results: seq<Result<Option<Message>>>) {
    forall r | r in results :: Smooth(r)
  }

  /** What any number of reads has returned: the first messages, and all of them if `all`. */
  predicate Delivered(got: seq<Result<Option<Message>>>, messages: seq<Message>, all: bool) {
    AllSmooth(got) && AllData(got) <= messages && (all ==> AllData(got) == messages)
  }

  lemma DeliveredNext(m: Message, got: seq<Result<Option<Message>>>, messages: seq<Message>, all: bool)
    requires messages != [] && messages[0] == m && IsData(m) && Delivered(got, messages[1..], all)
    ensures Delivered([Ok(Some(m))] + got, messages, all)
  {
    var more := [Ok(Some(m))] + got;
    assert more[0] == Ok(Some(m)) && more[1..] == got;
    assert AllData(more) == [m] + AllData(got);
    assert messages == [m] + messages[1..];
  }

  lemma DeliveredBlocked(got: seq<Result<Option<Message>>>, messages: seq<Message>, all: bool)
    requires Delivered(got, messages, all)
    ensures Delivered([Err(Io(WouldBlock))] + got, messages, all)
  {
    var more := [Err(Io(WouldBlock))] + got;
    assert more[0] == Err(Io(WouldBlock)) && more[1..] == got;
    assert AllData(more) == AllData(got);
  }

  lemma PlayOneRead(ctx: Context, s: Stream, n: nat)
    requires n > 0
    ensures var l := Read(ctx, s);
            var rest := Play(l.ctx, l.stream, Reads(n - 1));
            Play(ctx, s, Reads(n)) == Session(rest.ctx, rest.stream, [ReadResult(l)] + rest.results)
  {
    hide Read;
    assert Reads(n)[1..] == Reads(n - 1);
  }

  /** Any number of reads delivers the first messages in order, and enough reads deliver all that was sent. */
  lemma {:induction false} ReadsDeliver(ctx: Context, s: Stream, missing: Bytes, frames: seq<Frame>,
                                        messages: seq<Message>, n: nat)
    requires Waiting(ctx) && At(ctx.codec, s, missing, frames)
    requires CarriesAll(Peer(ctx.role), frames, messages) && AllDeliverable(ctx.config, messages)
    ensures Delivered(Play(ctx, s, Reads(n)).results, messages, missing == [] && n >= |messages| + |s.incoming|)
    decreases n
  {
    hide Read, At, CarriesAll, AllDeliverable, Play, Delivered;
    if n == 0 {
      NoReads(ctx, s, messages, missing == [] && n >= |messages| + |s.incoming|);
    } else {
      ReadDelivers(ctx, s, missing, frames, messages);
      PlayOneRead(ctx, s, n);
      var r := Read(ctx, s);
      var others := Play(r.ctx, r.stream, Reads(n - 1)).results;
      var all := missing == [] && n >= |messages| + |s.incoming|;
      if r.result.Ok? {
        AllTails(ctx.config, Peer(ctx.role), frames, messages);
        ReadsDeliver(r.ctx, r.stream, missing, frames[1..], messages[1..], n - 1);
        DeliveredLess(others, messages[1..], all);
        DeliveredNext(messages[0], others, messages, all);
      } else {
        ReadsDeliver(r.ctx, r.stream, missing, frames, messages, n - 1);
        DeliveredLess(others, messages, all);
        DeliveredBlocked(others, messages, all);
      }
    }
  }

  lemma NoReads(ctx: Context, s: Stream, messages: seq<Message>, all: bool)
    requires all ==> messages == []
    ensures Delivered(Play(ctx, s, Reads(0)).results, messages, all)
  {
    assert Reads(0) == [];
  }

  lemma DeliveredLess(got: seq<Result<Option<Message>>>, messages: seq<Message>, all: bool)
    requires Delivered(got, messages, true) || (!all && Delivered(got, messages, false))
    ensures Delivered(got, messages, all)
  {
  }

  /**
   A connection of two new contexts.  Whatever one side writes (with refusals, partial writes and flushes as
   they come), the other side's reads never fail and return the accepted messages in order, as far as their
   bytes were handed on; once the output buffer is empty, enough reads return them all.
   */
  lemma WrittenIsRead(role: Role, config: Config, writes: Stream, calls: seq<Call>,
                      peerConfig: Config, early: Bytes, incoming: Stream, n: nat)
    requires writes.accepted == [] && Writing(calls)
    requires Steady(incoming.incoming)
    requires var w := Play(NewContext(role, [], config), writes, calls);
             && early + Arriving(incoming.incoming) == w.stream.accepted
             && AllDeliverable(peerConfig, Written(calls, w.results))
    ensures var w := Play(NewContext(role, [], config), writes, calls);
            var sent := Written(calls, w.results);
            var got := Play(NewContext(Peer(role), early, peerConfig), incoming, Reads(n)).results;
            && AllSmooth(got)
            && AllData(got) <= sent
            && (w.ctx.codec.output == [] && n >= |sent| + |incoming.incoming| ==> AllData(got) == sent)
  {
    hide Play, AllDeliverable, Carries, Steady, AllSmooth, AllData, Formats, Accounts, Written, Writing, At;
    var writer, reader := NewContext(role, [], config), NewContext(Peer(role), early, peerConfig);
    var w := Play(writer, writes, calls);
    var sent := Written(calls, w.results);
    WritesSend(writer, writes, calls, []);
    assert [] + sent == sent;
    WrittenIsOnTheWire(writer, writes, calls, early, incoming);
    WireIsAt(reader.codec, incoming, w.ctx.codec.output, w.ctx.codec.sent);
    ReadsDeliver(reader, incoming, w.ctx.codec.output, w.ctx.codec.sent, sent, n);
  }

  lemma WireIsAt(c: Codec, s: Stream, missing: Bytes, frames: seq<Frame>)
    requires Wire(c.announced, c.input + (Arriving(s.incoming) + missing), frames) && Steady(s.incoming)
    ensures At(c, s, missing, frames)
  {
  }

  lemma WrittenIsOnTheWire(writer: Context, writes: Stream, calls: seq<Call>, early: Bytes, incoming: Stream)
    requires writer.codec.output == [] && writer.codec.sent == [] && writes.accepted == []
    requires Steady(incoming.incoming)
    requires early + Arriving(incoming.incoming) == Play(writer, writes, calls).stream.accepted
    ensures var w := Play(writer, writes, calls).ctx.codec;
            Wire(None, early + (Arriving(incoming.incoming) + w.output), w.sent)
  {
    hide Play, Steady;
    var w := Play(writer, writes, calls);
    assert Accounts([], writer, writes);
    SessionConservesOutput([], writer, writes, calls);
    assert early + (Arriving(incoming.incoming) + w.ctx.codec.output) == w.stream.accepted + w.ctx.codec.output;
    assert [] + Formats(w.ctx.codec.sent) == Formats(w.ctx.codec.sent);
  }
}
