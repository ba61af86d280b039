/**
 The receive and send loops of the WebSocket adapter over its context (`src/adapters/ws/ws_adapter.rs`):
 which answers a driver gets from them.
 */
module WsAdapters {
  import opened Base
  import opened Coding
  import opened Frames
  import opened Streams
  import opened Codecs
  import opened Utf8Text
  import opened Messages
  import opened Contexts
  import opened Sessions
  import opened Closing
  import opened Ending
  import opened Reading
  import opened EndToEnd
  import opened Fragments
  import opened Writes
  import Links
  import Remotes

  // ---------------------------------------------------------------- receiving

  datatype ReadStatus = WaitNextEvent | Disconnected

  /** What has become of the connection, the messages handed to the driver, and whether it is over. */
  datatype Receipt = Receipt(ctx: Context, stream: Stream, data: seq<Bytes>, status: ReadStatus)

  function StatusFor(kind: ErrorKind): ReadStatus {
    if kind.WouldBlock? then WaitNextEvent else Disconnected
  }

  /** Peeking at the socket fails as the next read of it would; it does not see what the context has buffered. */
  function Peek(s: Stream): Option<ErrorKind> {
    if s.incoming == [] then Some(WouldBlock)
    else if s.incoming[0].ReadFails? then Some(s.incoming[0].kind)
    else None
  }

  lemma {:induction false} ReadLoopConsumes(ctx: Context, s: Stream)
    ensures var l := ReadLoop(ctx, s); l.result.Ok? ==> Unread(l.ctx.codec, l.stream) < Unread(ctx.codec, s)
    decreases Unread(ctx.codec, s)
  {
    hide ReadFrame, Flush, HandleFrame;
    var b := BeforeRead(ctx, s);
    ReadFrameProgress(b.ctx.codec, b.stream, b.ctx.config.FrameLimit());
    if b.result.Ok? {
      var r := ReadMessageFrame(b.ctx, b.stream);
      ReadProgress(ctx, s);
      if r.result == Ok(None) {
        ReadLoopConsumes(r.ctx, r.stream);
      }
    }
  }

  lemma ReadConsumes(ctx: Context, s: Stream)
    ensures var l := Read(ctx, s); l.result.Ok? ==> Unread(l.ctx.codec, l.stream) < Unread(ctx.codec, s)
  {
    hide ReadLoop, Unread;
    ReadLoopConsumes(ctx, s);
  }

  /** Binary messages are handed over until the socket has nothing more, others are passed over. */
  function Receive(ctx: Context, s: Stream): Receipt
    decreases Unread(ctx.codec, s)
  {
    var l := Read(ctx, s);
    ReadConsumes(ctx, s);
    match l.result
    case Err(Io(kind)) => Receipt(l.ctx, l.stream, [], StatusFor(kind))
    case Err(_) => Receipt(l.ctx, l.stream, [], Disconnected)
    case Ok(Close(_)) => Receipt(l.ctx, l.stream, [], Disconnected)
    case Ok(Binary(data)) =>
      (match Peek(l.stream)
       case Some(kind) => Receipt(l.ctx, l.stream, [data], StatusFor(kind))
       case None => var rest := Receive(l.ctx, l.stream); rest.(data := [data] + rest.data))
    case Ok(_) => Receive(l.ctx, l.stream)
  }

  /** A read that fails, or that returns the peer's Close, ends the receive; only one that is blocked is no loss. */
  lemma ReceiveEnds(ctx: Context, s: Stream)
    ensures var l, r := Read(ctx, s), Receive(ctx, s);
            && (l.result.Err? || l.result.value.Close? ==>
                  && r.ctx == l.ctx && r.stream == l.stream && r.data == []
                  && (r.status == WaitNextEvent <==> l.result == Err(Io(WouldBlock))))
            && (l.result.Ok? && l.result.value.Binary? && Peek(l.stream).Some? ==>
                  && r.ctx == l.ctx && r.stream == l.stream && r.data == [l.result.value.data]
                  && (r.status == WaitNextEvent <==> Peek(l.stream) == Some(WouldBlock)))
  {
    hide Read;
  }

  /** The data of the binary messages. */
  function Binaries(messages: seq<Message>): seq<Bytes> {
    if messages == [] then []
    else (if messages[0].Binary? then [messages[0].data] else []) + Binaries(messages[1..])
  }

  lemma {:induction false} BinariesAppend(a: seq<Message>, b: seq<Message>)
    ensures Binaries(a + b) == Binaries(a) + Binaries(b)
  {
    if a == [] {
      assert a + b == b;
    } else {
      var ab := a + b;
      assert ab[0] == a[0] && ab[1..] == a[1..] + b;
      BinariesAppend(a[1..], b);
      var first := if a[0].Binary? then [a[0].data] else [];
      assert Binaries(ab) == first + (Binaries(a[1..]) + Binaries(b)) == Binaries(a) + Binaries(b);
    }
  }

  lemma BinariesOne(m: Message)
    ensures Binaries([m]) == if m.Binary? then [m.data] else []
  {
    assert [m][1..] == [];
  }

  /** What a receive has done, when it leaves this group open and these frames. */
  ghost predicate Handed(missing: Bytes, group: Option<Group>, frames: seq<Frame>, r: Receipt,
                         after: Option<Group>, rest: seq<Frame>) {
    && Reader(r.ctx, r.stream, missing, after, rest)
    && Binaries(Told(group, frames)) == r.data + Binaries(Told(after, rest))
    && r.status == WaitNextEvent
  }

  lemma OneHanded(told: seq<Message>, m: Message, more: seq<Message>)
    requires told == [m] + more
    ensures Binaries(told) == (if m.Binary? then [m.data] else []) + Binaries(more)
  {
    BinariesAppend([m], more);
    BinariesOne(m);
  }

  lemma SteadyPeek(s: Stream)
    requires Steady(s.incoming)
    ensures Peek(s).Some? ==> Peek(s).value.WouldBlock?
  {
    if s.incoming != [] {
      assert s.incoming[0] in s.incoming;
    }
  }

  lemma NoCloseTold(r: Result<Option<Message>>, group: Option<Group>, frames: seq<Frame>, more: seq<Message>)
    requires Told(group, frames) == Given(r) + more
    ensures r.Ok? && r.value.Some? ==> !r.value.value.Close? && !r.value.value.Raw?
  {
    if r.Ok? && r.value.Some? {
      assert Told(group, frames)[0] == r.value.value;
      assert r.value.value in Told(group, frames);
      ToldKinds(group, frames);
    }
  }

  lemma {:induction false} ToldKinds(group: Option<Group>, frames: seq<Frame>)
    ensures forall m | m in Told(group, frames) :: m.Text? || m.Binary? || m.Ping? || m.Pong?
    decreases frames
  {
    if frames != [] {
      ToldKinds(group, frames[1..]);
      if frames[0].header.opcode.Data? {
        ToldKinds(GroupBehind(group, frames[0]), frames[1..]);
      }
    }
  }

  lemma ReadIsTold(ctx: Context, s: Stream, missing: Bytes, group: Option<Group>, frames: seq<Frame>)
    returns (after: Option<Group>, rest: seq<Frame>)
    requires Reader(ctx, s, missing, group, frames)
    ensures ReadOn(s, missing, group, frames, Read(ctx, s), after, rest)
    ensures var l := Read(ctx, s);
            && (l.result.Ok? ==> !l.result.value.Close? && !l.result.value.Raw?)
            && (Peek(l.stream).Some? ==> Peek(l.stream).value.WouldBlock?)
  {
    hide ReadLoop, Told, Wire, Follow, AllProper, Holds, Calm;
    CanReadIsNotOver(ctx, s, missing, group, frames);
    after, rest := ReadLoopIsTold(ctx, s, missing, group, frames);
    var l := Read(ctx, s);
    NoCloseTold(ReadResult(l), group, frames, Told(after, rest));
    SteadyPeek(l.stream);
  }

  /**
   On a wire of proper fragments and control frames, in any cut: a receive never reports a loss; it hands over
   the first of the binary messages, each whole and in order, and leaves the others to be received.
   */
  lemma {:induction false} ReceiveHandsOver(ctx: Context, s: Stream, missing: Bytes, group: Option<Group>,
                                            frames: seq<Frame>)
    returns (after: Option<Group>, rest: seq<Frame>)
    requires Reader(ctx, s, missing, group, frames)
    ensures Handed(missing, group, frames, Receive(ctx, s), after, rest)
    decreases Unread(ctx.codec, s)
  {
    hide Read, Reader, Told, Exhausted, Binaries, Unread, Peek;
    after, rest := ReadIsTold(ctx, s, missing, group, frames);
    var l := Read(ctx, s);
    ReadConsumes(ctx, s);
    if l.result.Ok? {
      OneHanded(Told(group, frames), l.result.value, Told(after, rest));
      if !(l.result.value.Binary? && Peek(l.stream).Some?) {
        ghost var a, q := ReceiveHandsOver(l.ctx, l.stream, missing, after, rest);
        after, rest := a, q;
      }
    } else {
      assert Told(group, frames) == [] + Told(after, rest) == Told(after, rest);
    }
  }

  // ---------------------------------------------------------------- what a receive leaves behind

  /** Two binary messages arrive at once: the first is handed over, the second waits for another event. */
  lemma SecondIsLeft(config: Config, first: Bytes, second: Bytes)
    requires Deliverable(config, Message.Binary(first)) && Deliverable(config, Message.Binary(second))
    ensures var f, g := MessageFrame(first, DataOp.Binary, true), MessageFrame(second, DataOp.Binary, true);
            var r := Receive(NewContext(Client, [], config),
                             Stream([Chunk(Formats([f, g]))], [], [], [], []));
            && r.data == [first] && r.status == WaitNextEvent && r.stream.incoming == []
            && Wire(r.ctx.codec.announced, r.ctx.codec.input, [g])
  {
    hide Read, MessageFrame, Deliverable, Formats, Wire;
    var f, g := MessageFrame(first, DataOp.Binary, true), MessageFrame(second, DataOp.Binary, true);
    var s := Stream([Chunk(Formats([f, g]))], [], [], [], []);
    TwoAtOnce(config, first, second);
    FirstIsRead(NewContext(Client, [], config), s, [f, g], Message.Binary(first));
    assert [f, g][1..] == [g];
  }

  lemma FirstIsRead(ctx: Context, s: Stream, frames: seq<Frame>, m: Message)
    requires Waiting(ctx) && At(ctx.codec, s, [], frames) && |frames| == 2
    requires s.incoming == [Chunk(Formats(frames))]
    requires Carries(Peer(ctx.role), frames[0], m) && Deliverable(ctx.config, m)
    ensures var l := Read(ctx, s);
            l.result == Ok(m) && l.stream.incoming == [] && Wire(l.ctx.codec.announced, l.ctx.codec.input, frames[1..])
  {
    hide *;
    ReadDeliversFirst(ctx, s, [], frames, m);
    Links.ReadTakes(ctx, s);
    var l := Read(ctx, s);
    AllOrNothing(l.stream.incoming, s.incoming);
    if l.stream.incoming == [] {
      NothingToCome(l.stream);
      AtIsWire(l.ctx.codec, l.stream, frames[1..]);
    } else {
      NotBefore(l.ctx.codec, l.stream, frames);
    }
  }

  lemma NothingToCome(s: Stream)
    requires s.incoming == []
    ensures Exhausted(s, [])
  {
  }

  lemma AllOrNothing(rest: seq<ReadEvent>, incoming: seq<ReadEvent>)
    requires |incoming| == 1 && Links.RestOf(rest, incoming)
    ensures rest == [] || rest == incoming
  {
    assert incoming[0..] == incoming && incoming[1..] == [];
  }

  /** The second frame is not reached before its bytes have come. */
  lemma NotBefore(c: Codec, s: Stream, frames: seq<Frame>)
    requires |frames| == 2 && s.incoming == [Chunk(Formats(frames))]
    ensures !At(c, s, [], frames[1..])
  {
    hide FormatFrame, OnTheWire;
    var f, g := frames[0], frames[1];
    assert frames[1..] == [g] && [g][1..] == [] && s.incoming[1..] == [];
    assert Formats(frames) == FormatFrame(f) + Formats([g]) && Formats([g]) == FormatFrame(g) + Formats([]);
    MaskedLength(g);
    FrameLenIsFormatted(f);
    FrameLenIsFormatted(g);
    assert Arriving(s.incoming) == Formats(frames);
  }

  lemma AtIsWire(c: Codec, s: Stream, frames: seq<Frame>)
    requires At(c, s, [], frames) && s.incoming == []
    ensures Wire(c.announced, c.input, frames)
  {
    hide Wire;
    assert c.input + (Arriving(s.incoming) + []) == c.input;
  }

  lemma TwoAtOnce(config: Config, first: Bytes, second: Bytes)
    requires Deliverable(config, Message.Binary(first)) && Deliverable(config, Message.Binary(second))
    ensures var f, g := MessageFrame(first, DataOp.Binary, true), MessageFrame(second, DataOp.Binary, true);
            var s := Stream([Chunk(Formats([f, g]))], [], [], [], []);
            && At(NewContext(Client, [], config).codec, s, [], [f, g])
            && Carries(Peer(Client), f, Message.Binary(first))
            && Waiting(NewContext(Client, [], config))
  {
    hide FormatFrame;
    var f, g := MessageFrame(first, DataOp.Binary, true), MessageFrame(second, DataOp.Binary, true);
    FrameLenIsFormatted(f);
    assert Formats([f, g]) != [] by { assert |FormatFrame(f)| >= 2; }
    var incoming := [Chunk(Formats([f, g]))];
    assert incoming[1..] == [];
    assert Arriving(incoming) == Formats([f, g]) + Arriving(incoming[1..]) == Formats([f, g]);
  }

  // ---- how a read depends on what has come

  lemma {:induction false} WriteOutMore(output: Bytes, s: Stream, x: seq<ReadEvent>)
    ensures var d := WriteOut(output, s);
            WriteOut(output, s.(incoming := x)) == d.(stream := d.stream.(incoming := x))
    decreases |output|
  {
    if output != [] && s.writes != [] && s.writes[0].Accepts? && s.writes[0].count > 0 {
      var n := Min(s.writes[0].count, |output|);
      var s' := s.(writes := s.writes[1..], accepted := s.accepted + output[..n]);
      WriteOutMore(output[n..], s', x);
      assert s.(incoming := x).(writes := s.writes[1..], accepted := s.accepted + output[..n]) == s'.(incoming := x);
    }
  }

  lemma BufferMore(ctx: Context, s: Stream, f: Frame, x: seq<ReadEvent>)
    ensures var b := Buffer(ctx, s, f); Buffer(ctx, s.(incoming := x), f) == b.(stream := b.stream.(incoming := x))
  {
    hide WriteOut, FormatFrame;
    var (f', s') := Prepared(ctx.role, s, f);
    WriteOutMore(Appended(ctx.codec, f').output, s', x);
  }

  lemma SendAdditionalMore(ctx: Context, s: Stream, x: seq<ReadEvent>)
    ensures var a := SendAdditional(ctx, s);
            SendAdditional(ctx, s.(incoming := x)) == a.(stream := a.stream.(incoming := x))
  {
    hide Buffer;
    if ctx.additional.Some? {
      BufferMore(ctx.(additional := None), s, ctx.additional.value, x);
    }
  }

  lemma WriteInnerMore(ctx: Context, s: Stream, x: seq<ReadEvent>)
    ensures var w := WriteInner(ctx, s, None);
            WriteInner(ctx, s.(incoming := x), None) == w.(stream := w.stream.(incoming := x))
  {
    hide SendAdditional, WriteOut;
    SendAdditionalMore(ctx, s, x);
    var a := SendAdditional(ctx, s);
    WriteOutMore(a.ctx.codec.output, a.stream, x);
  }

  lemma FlushMore(ctx: Context, s: Stream, x: seq<ReadEvent>)
    ensures var f := Flush(ctx, s); Flush(ctx, s.(incoming := x)) == f.(stream := f.stream.(incoming := x))
  {
    hide WriteInner, WriteOut;
    WriteInnerMore(ctx, s, x);
    var w := WriteInner(ctx, s, None);
    WriteOutMore(w.ctx.codec.output, w.stream, x);
  }

  lemma BeforeReadMore(ctx: Context, s: Stream, x: seq<ReadEvent>)
    ensures var b := BeforeRead(ctx, s); BeforeRead(ctx, s.(incoming := x)) == b.(stream := b.stream.(incoming := x))
  {
    hide Flush;
    FlushMore(ctx, s, x);
    assert s.(incoming := s.incoming) == s;
  }

  /** Chunks only: what has arrived by now. */
  predicate Arrived(incoming: seq<ReadEvent>) {
    forall e | e in incoming :: e.Chunk? && e.data != []
  }

  /** One chunk more behind what has come. */
  function With(s: Stream, last: ReadEvent): Stream {
    s.(incoming := s.incoming + [last])
  }

  lemma ArrivedTail(incoming: seq<ReadEvent>)
    requires Arrived(incoming) && incoming != []
    ensures incoming[0].Chunk? && incoming[0].data != [] && Arrived(incoming[1..])
  {
    assert incoming[0] in incoming;
  }

  /** A frame read that needs no more is the same with more; one that is blocked takes the rest. */
  lemma {:induction false} ReadFrameMore(c: Codec, s: Stream, last: ReadEvent, limit: nat)
    requires Arrived(s.incoming) && last.Chunk? && last.data != []
    ensures var r, r' := ReadFrame(c, s, limit), ReadFrame(c, With(s, last), limit);
            if r.result == Err(Io(WouldBlock)) then r'.stream.incoming == [] && r.stream.incoming == []
            else r' == r.(stream := With(r.stream, last))
    decreases |s.incoming|
  {
    hide TakeFrame, Arrived;
    var t, s' := TakeFrame(c, limit), With(s, last);
    TakeFrameErrors(c, limit);
    if t.Short? {
      if s.incoming == [] {
        assert s'.incoming == [last] && s'.incoming[1..] == [];
        ReadFrameTakesNone(t.codec.(input := t.codec.input + last.data), s'.(incoming := []), limit);
      } else {
        ArrivedTail(s.incoming);
        assert s'.incoming[0] == s.incoming[0] && s'.incoming[1..] == s.incoming[1..] + [last];
        var c' := t.codec.(input := t.codec.input + s.incoming[0].data);
        ReadFrameMore(c', s.(incoming := s.incoming[1..]), last, limit);
      }
    }
  }

  lemma TakeFrameErrors(c: Codec, limit: nat)
    ensures var t := TakeFrame(c, limit); t.Refused? ==> !t.error.Io?
  {
    hide ParseHeader;
  }

  lemma ReadFrameTakesNone(c: Codec, s: Stream, limit: nat)
    requires s.incoming == []
    ensures ReadFrame(c, s, limit).stream.incoming == []
  {
    hide TakeFrame;
  }

  lemma FrameMore(ctx: Context, s: Stream, last: ReadEvent)
    requires Arrived(s.incoming) && last.Chunk? && last.data != []
    ensures var r, r' := ReadMessageFrame(ctx, s), ReadMessageFrame(ctx, With(s, last));
            if r.result == Err(Io(WouldBlock)) then
              && r'.stream.incoming == [] && r.stream.incoming == []
              && Pending(r.ctx.codec, r.stream, ctx.config.FrameLimit()) == []
            else r' == r.(stream := With(r.stream, last))
  {
    hide ReadFrame, HandleFrame, Arrived, Pending;
    ReadFrameMore(ctx.codec, s, last, ctx.config.FrameLimit());
    ReadFramePending(ctx.codec, s, ctx.config.FrameLimit());
  }

  lemma FrameArrived(ctx: Context, s: Stream)
    requires Arrived(s.incoming)
    ensures Arrived(ReadMessageFrame(ctx, s).stream.incoming)
  {
    hide ReadFrame, HandleFrame;
    Links.ReadFrameTakes(ctx.codec, s, ctx.config.FrameLimit());
  }

  lemma {:induction false} ReadLoopMore(ctx: Context, s: Stream, last: ReadEvent)
    requires Arrived(s.incoming) && last.Chunk? && last.data != []
    ensures var l, l' := ReadLoop(ctx, s), ReadLoop(ctx, With(s, last));
            if l.result == Err(Io(WouldBlock)) then
              && l'.stream.incoming == [] && l.stream.incoming == []
              && Pending(l.ctx.codec, l.stream, ctx.config.FrameLimit()) == []
            else l' == l.(stream := With(l.stream, last))
    decreases Unread(ctx.codec, s)
  {
    hide BeforeRead, ReadMessageFrame, Arrived, Pending;
    BeforeReadMore(ctx, s, s.incoming + [last]);
    var b := BeforeRead(ctx, s);
    BeforeReadFails(ctx, s);
    if b.result.Ok? {
      assert BeforeRead(ctx, With(s, last)) == b.(stream := With(b.stream, last));
      FrameMore(b.ctx, b.stream, last);
      FrameArrived(b.ctx, b.stream);
      var r := ReadMessageFrame(b.ctx, b.stream);
      var r' := ReadMessageFrame(b.ctx, With(b.stream, last));
      ReadProgress(ctx, s);
      if r.result == Ok(None) {
        ReadLoopMore(r.ctx, r.stream, last);
      } else if r'.result == Ok(None) {
        Links.ReadLoopTakes(r'.ctx, r'.stream);
      }
    }
  }

  lemma BeforeReadFails(ctx: Context, s: Stream)
    ensures BeforeRead(ctx, s).result != Err(Io(WouldBlock))
  {
    hide Flush;
  }

  // ---- counting

  /** How many binary messages what has come completes. */
  ghost function Complete(ctx: Context, s: Stream, group: Option<Group>): nat {
    |Binaries(Todo(ctx, s, group))|
  }

  /** Without the chunk that came last. */
  function Before(s: Stream): Stream
    requires s.incoming != []
  {
    s.(incoming := s.incoming[..|s.incoming| - 1])
  }

  /** How many of them the chunk that came last completes, or all if none came. */
  ghost function AtLast(ctx: Context, s: Stream, group: Option<Group>): int {
    Complete(ctx, s, group) - if s.incoming == [] then 0 else Complete(ctx, Before(s), group)
  }

  /** A context holds one group only. */
  lemma HoldsOne(ctx: Context, g: Option<Group>, h: Option<Group>)
    requires Holds(ctx, g) && Holds(ctx, h)
    ensures g == h
  {
    hide LeadOf, Decode;
    if g.Some? && g.value.text && h.Some? && h.value.text {
      CollectedIs(g.value.total);
      CollectedIs(h.value.total);
    }
  }

  lemma CollectedIs(total: Bytes)
    requires CollectorOf(total).Some?
    ensures var c := CollectorOf(total).value;
            total == c.data + if c.incomplete.Some? then c.incomplete.value else []
  {
    hide LeadOf, Decode;
  }

  lemma CompletesNext(told: seq<Message>, r: Result<Option<Message>>, more: seq<Message>)
    requires told == DataOf(r) + more
    ensures |Binaries(told)|
         == |Binaries(more)| + if r.Ok? && r.value.Some? && r.value.value.Binary? then 1 else 0
  {
    BinariesAppend(DataOf(r), more);
    if DataOf(r) == [] {
      assert Binaries(DataOf(r)) == [];
    } else {
      BinariesOne(DataOf(r)[0]);
    }
  }

  /** One read, counted: a binary message returned is one less to come. */
  lemma ReadCounts(ctx: Context, s: Stream, group: Option<Group>, after: Option<Group>)
    requires Holds(ctx, group) && ctx.state.CanRead()
    requires Smooth(ReadResult(Read(ctx, s))) && Holds(Read(ctx, s).ctx, after)
    ensures var l := Read(ctx, s);
            Complete(ctx, s, group)
            == Complete(l.ctx, l.stream, after) + if l.result.Ok? && l.result.value.Binary? then 1 else 0
  {
    hide ReadLoop, Holds, Todo, DataOf, Binaries;
    ghost var same := ReadLoopAssembles(ctx, s, group);
    var l := Read(ctx, s);
    HoldsOne(l.ctx, after, same);
    CompletesNext(Todo(ctx, s, group), ReadResult(l), Todo(l.ctx, l.stream, after));
  }

  /** Where nothing is pending, nothing is complete. */
  lemma NothingComplete(ctx: Context, s: Stream, group: Option<Group>)
    requires Pending(ctx.codec, s, ctx.config.FrameLimit()) == []
    ensures Complete(ctx, s, group) == 0
  {
    hide Pending;
    assert Todo(ctx, s, group) == [];
  }

  /** A blocked read has left nothing complete. */
  lemma BlockedIsEmpty(ctx: Context, s: Stream, after: Option<Group>)
    requires ctx.state.CanRead() && Arrived(s.incoming) && Read(ctx, s).result == Err(Io(WouldBlock))
    ensures var l := Read(ctx, s); l.stream.incoming == [] && Complete(l.ctx, l.stream, after) == 0
  {
    hide ReadLoop, Complete, Pending, Arrived;
    ReadLoopMore(ctx, s, Chunk([0]));
    var l := Read(ctx, s);
    NothingComplete(l.ctx, l.stream, after);
  }

  /** Before the chunk that the read had to take, nothing was complete. */
  lemma NoneBeforeLast(ctx: Context, s: Stream, group: Option<Group>)
    requires ctx.state.CanRead() && Holds(ctx, group) && Arrived(s.incoming)
    requires Read(ctx, s).result == Err(Io(WouldBlock))
    ensures Complete(ctx, s, group) == 0
  {
    hide ReadLoop, Holds, Complete, Arrived;
    ghost var after := ReadLoopAssembles(ctx, s, group);
    BlockedIsEmpty(ctx, s, after);
    ReadCounts(ctx, s, group, after);
  }

  lemma LastApart(s: Stream)
    requires s.incoming != [] && Arrived(s.incoming)
    ensures var last := s.incoming[|s.incoming| - 1];
            With(Before(s), last) == s && last.Chunk? && last.data != [] && Arrived(Before(s).incoming)
    ensures forall x: Stream, e: ReadEvent :: With(x, e).incoming != [] && Before(With(x, e)) == x
  {
    assert s.incoming == s.incoming[..|s.incoming| - 1] + [s.incoming[|s.incoming| - 1]];
    assert s.incoming[|s.incoming| - 1] in s.incoming;
  }

  /** What one read leaves of the messages that the last chunk completes. */
  lemma ReadAtLast(ctx: Context, s: Stream, group: Option<Group>, after: Option<Group>)
    requires ctx.state.CanRead() && Holds(ctx, group) && Arrived(s.incoming)
    requires Smooth(ReadResult(Read(ctx, s))) && Holds(Read(ctx, s).ctx, after)
    ensures var l := Read(ctx, s);
            AtLast(ctx, s, group)
            == AtLast(l.ctx, l.stream, after)
             + if l.result.Ok? && l.result.value.Binary? && l.stream.incoming == [] then 1 else 0
  {
    hide ReadLoop, Holds, Complete, Arrived, With, Before;
    var l := Read(ctx, s);
    ReadCounts(ctx, s, group, after);
    if s.incoming == [] {
      Links.ReadTakes(ctx, s);
    } else {
      LastApart(s);
      var m := Read(ctx, Before(s));
      ReadLoopMore(ctx, Before(s), s.incoming[|s.incoming| - 1]);
      if m.result == Err(Io(WouldBlock)) {
        NoneBeforeLast(ctx, Before(s), group);
      } else {
        ReadCounts(ctx, Before(s), group, after);
      }
    }
  }

  lemma ReaderReads(ctx: Context, s: Stream, missing: Bytes, group: Option<Group>, frames: seq<Frame>)
    requires Reader(ctx, s, missing, group, frames)
    ensures ctx.state.CanRead() && Holds(ctx, group)
  {
    hide Holds, At, Calm, AllProper, Follow;
  }

  lemma ArrivedRest(ctx: Context, s: Stream)
    requires Arrived(s.incoming)
    ensures var l := Read(ctx, s);
            Arrived(l.stream.incoming) && (Peek(l.stream).Some? <==> l.stream.incoming == [])
  {
    hide Read;
    Links.ReadTakes(ctx, s);
    var rest := Read(ctx, s).stream.incoming;
    if rest != [] {
      assert rest[0] in rest;
    }
  }

  /** How many complete messages a receive leaves: all but the first of those that the last chunk completes. */
  lemma {:induction false} ReceiveLeaves(ctx: Context, s: Stream, missing: Bytes, group: Option<Group>,
                                         frames: seq<Frame>) returns (after: Option<Group>)
    requires Reader(ctx, s, missing, group, frames) && Arrived(s.incoming)
    ensures var r, last := Receive(ctx, s), AtLast(ctx, s, group);
            && Holds(r.ctx, after) && r.stream.incoming == []
            && Complete(r.ctx, r.stream, after) == if last <= 1 then 0 else last - 1
    decreases Unread(ctx.codec, s)
  {
    hide Read, Reader, Told, Exhausted, Unread, Peek, Complete, Holds, Arrived;
    ReaderReads(ctx, s, missing, group, frames);
    ghost var next, rest := ReadIsTold(ctx, s, missing, group, frames);
    var l := Read(ctx, s);
    ReaderReads(l.ctx, l.stream, missing, next, rest);
    ReadConsumes(ctx, s);
    ReadAtLast(ctx, s, group, next);
    ArrivedRest(ctx, s);
    after := next;
    if l.result.Err? {
      BlockedIsEmpty(ctx, s, next);
    } else if !(l.result.value.Binary? && l.stream.incoming == []) {
      after := ReceiveLeaves(l.ctx, l.stream, missing, next, rest);
    }
  }

  /**
   A driver receives when the socket is readable, and is told to wait for the next event.  All complete
   binary messages that have come by then have been handed over if and only if the chunk that came last
   completes at most one (of what was buffered already, if no chunk came); otherwise the others wait in the buffer of
   the context for another event of the socket.
   */
  lemma ReceiveTakesAllIff(ctx: Context, s: Stream, missing: Bytes, group: Option<Group>, frames: seq<Frame>)
    returns (after: Option<Group>)
    requires Reader(ctx, s, missing, group, frames) && Arrived(s.incoming)
    ensures var r := Receive(ctx, s);
            && Holds(r.ctx, after) && r.stream.incoming == [] && r.status == WaitNextEvent
            && (Complete(r.ctx, r.stream, after) == 0 <==> AtLast(ctx, s, group) <= 1)
  {
    hide Reader, Receive, Complete, Holds, Arrived, Told, Binaries;
    after := ReceiveLeaves(ctx, s, missing, group, frames);
    ghost var a, q := ReceiveHandsOver(ctx, s, missing, group, frames);
  }

  // ---------------------------------------------------------------- sending

  /** How a send ends; `Spins` when the stream never takes what is left, and the source tries for ever. */
  datatype Dispatch = Dispatched(ctx: Context, stream: Stream, status: Remotes.SendStatus)
                    | Spins(ctx: Context, stream: Stream)

  /** Write, then flush. */
  function SendOnce(ctx: Context, s: Stream, data: Bytes): Step<()> {
    var w := Write(ctx, s, Message.Binary(data));
    if w.result.Ok? then Flush(w.ctx, w.stream) else w
  }

  /** There are bytes to write and the stream has no answer left but to block. */
  predicate Stuck(r: Step<()>) {
    r.result == Err(Io(WouldBlock)) && r.stream.writes == [] && r.ctx.codec.output != []
  }

  function Answers(s: Stream): nat {
    |s.writes| + |s.flushes|
  }

  lemma {:induction false} WriteOutUses(output: Bytes, s: Stream)
    ensures var d := WriteOut(output, s);
            && Answers(d.stream) <= Answers(s)
            && (d.failure.Some? ==> Answers(d.stream) < Answers(s) || (d.stream.writes == [] && d.output != []))
    decreases |output|
  {
    if output != [] && s.writes != [] && s.writes[0].Accepts? && s.writes[0].count > 0 {
      var n := Min(s.writes[0].count, |output|);
      WriteOutUses(output[n..], s.(writes := s.writes[1..], accepted := s.accepted + output[..n]));
    }
  }

  lemma BufferUses(ctx: Context, s: Stream, f: Frame)
    ensures var b := Buffer(ctx, s, f);
            && Answers(b.stream) <= Answers(s)
            && (b.result == Err(Io(WouldBlock)) ==>
                  Answers(b.stream) < Answers(s) || (b.stream.writes == [] && b.ctx.codec.output != []))
  {
    hide FormatFrame, WriteOut;
    var (f', s') := Prepared(ctx.role, s, f);
    WriteOutUses(Appended(ctx.codec, f').output, s');
  }

  lemma SendAdditionalUses(ctx: Context, s: Stream)
    ensures var a := SendAdditional(ctx, s);
            && Answers(a.stream) <= Answers(s)
            && (a.result == Err(Io(WouldBlock)) ==>
                  Answers(a.stream) < Answers(s) || (a.stream.writes == [] && a.ctx.codec.output != []))
  {
    hide Buffer, Answers;
    if ctx.additional.Some? {
      BufferUses(ctx.(additional := None), s, ctx.additional.value);
    }
  }

  lemma WriteInnerUses(ctx: Context, s: Stream)
    ensures var w := WriteInner(ctx, s, None);
            && Answers(w.stream) <= Answers(s)
            && (w.result == Err(Io(WouldBlock)) ==>
                  Answers(w.stream) < Answers(s) || (w.stream.writes == [] && w.ctx.codec.output != []))
  {
    hide SendAdditional, WriteOut, Answers;
    SendAdditionalUses(ctx, s);
    var a := SendAdditional(ctx, s);
    WriteOutUses(a.ctx.codec.output, a.stream);
  }

  lemma FlushStreamUses(s: Stream)
    ensures var f := FlushStream(s);
            Answers(f.0) <= Answers(s) && (f.1.Err? ==> Answers(f.0) < Answers(s))
  {
  }

  /** A flush that is blocked has used an answer of the stream, unless it is stuck. */
  lemma FlushUses(ctx: Context, s: Stream)
    ensures var f := Flush(ctx, s);
            && Answers(f.stream) <= Answers(s)
            && (f.result == Err(Io(WouldBlock)) ==> Answers(f.stream) < Answers(s) || Stuck(f))
  {
    hide WriteInner, WriteOut, Answers, FlushStream;
    WriteInnerUses(ctx, s);
    var w := WriteInner(ctx, s, None);
    WriteOutUses(w.ctx.codec.output, w.stream);
    FlushStreamUses(WriteOut(w.ctx.codec.output, w.stream).stream);
  }

  function Settled(r: Step<()>): bool {
    r.result != Err(Io(WouldBlock)) || Stuck(r)
  }

  /** Flush until it is not blocked any more. */
  function Settle(r: Step<()>): Dispatch
    decreases Answers(r.stream), if Settled(r) then 0 else 1
  {
    match r.result
    case Ok(_) => Dispatched(r.ctx, r.stream, Remotes.Sent)
    case Err(MessageTooLong(_, _)) => Dispatched(r.ctx, r.stream, Remotes.MaxPacketSizeExceeded)
    case Err(Io(WouldBlock)) =>
      if Stuck(r) then Spins(r.ctx, r.stream)
      else
        FlushUses(r.ctx, r.stream);
        Settle(Flush(r.ctx, r.stream))
    case Err(_) => Dispatched(r.ctx, r.stream, Remotes.ResourceNotFound)
  }

  function Send(ctx: Context, s: Stream, data: Bytes): Dispatch {
    Settle(SendOnce(ctx, s, data))
  }

  /** Once stuck, every further flush is blocked and changes nothing that could help. */
  lemma StuckStays(r: Step<()>)
    requires Stuck(r) && r.ctx.state.CanRead()
    ensures Stuck(Flush(r.ctx, r.stream)) && Flush(r.ctx, r.stream).ctx.state == r.ctx.state
    ensures Flush(r.ctx, r.stream).stream.accepted == r.stream.accepted
  {
    hide FormatFrame;
  }

  // ---- what the status says

  /** On the way: the frames sent so far, and a connection that is still active. */
  ghost predicate OnTheWay(sent: seq<Frame>, r: Step<()>) {
    && sent <= r.ctx.codec.sent && r.ctx.state.Active?
    && (r.result.Ok? ==> r.ctx.codec.output == [])
    && (r.result.Err? ==> !r.result.error.MessageTooLong?)
  }

  lemma FlushOnTheWay(sent: seq<Frame>, ctx: Context, s: Stream)
    requires sent <= ctx.codec.sent && ctx.state.Active?
    ensures OnTheWay(sent, Flush(ctx, s))
    ensures Calm(s) ==> Calm(Flush(ctx, s).stream) && (Flush(ctx, s).result.Err? ==> Blocked(Flush(ctx, s).result))
  {
    hide WriteInner, Calm;
    FlushGrows(ctx, s);
    FlushReachesStream(ctx, s);
    FlushEnding(ctx, s);
    FlushLeavesReply(ctx, s);
    if Calm(s) {
      FlushCalm(ctx, s);
    }
  }

  lemma FlushGrows(ctx: Context, s: Stream)
    ensures ctx.codec.sent <= Flush(ctx, s).ctx.codec.sent
  {
    hide WriteInner, WriteOut;
    SentGrows(ctx, s, None);
  }

  lemma {:induction false} SettleMeans(sent: seq<Frame>, r: Step<()>)
    requires OnTheWay(sent, r)
    ensures var d := Settle(r);
            && sent <= d.ctx.codec.sent && d.ctx.state.Active?
            && (d.Dispatched? ==> d.status.Sent? || d.status.ResourceNotFound?)
            && (d.Dispatched? && d.status.Sent? ==> d.ctx.codec.output == [])
            && (d.Spins? ==> Stuck(Step(d.ctx, d.stream, Err(Io(WouldBlock)))))
            && (Calm(r.stream) && (r.result.Err? ==> Blocked(r.result)) ==> d.Spins? || d.status.Sent?)
    decreases Answers(r.stream), if Settled(r) then 0 else 1
  {
    hide Flush, Calm, Answers;
    if r.result == Err(Io(WouldBlock)) && !Stuck(r) {
      FlushUses(r.ctx, r.stream);
      FlushOnTheWay(sent, r.ctx, r.stream);
      SettleMeans(sent, Flush(r.ctx, r.stream));
    }
  }

  /** The write of a message with room. */
  lemma SendOnceGoes(ctx: Context, s: Stream, data: Bytes) returns (f: Frame)
    requires ctx.state.Active? && HasRoom(ctx, s, FrameWritten(Message.Binary(data)))
    ensures SentAs(ctx.role, FrameWritten(Message.Binary(data)), f)
    ensures var r := SendOnce(ctx, s, data);
            && OnTheWay(ctx.codec.sent + [f], r)
            && (Calm(s) ==> Calm(r.stream) && (r.result.Err? ==> Blocked(r.result)))
  {
    hide Write, Flush, HasRoom, SentAs, FrameWritten, ReplySent, Calm;
    var m := Message.Binary(data);
    WriteSendsFrame(ctx, s, m);
    var w := Write(ctx, s, m);
    f :| SentAs(ctx.role, FrameWritten(m), f)
         && ReplySent(ctx.role, ctx.additional, ctx.codec.sent + [f], w.ctx.codec.sent, w.ctx.additional);
    ReplyGrows(ctx.role, ctx.additional, ctx.codec.sent + [f], w.ctx.codec.sent, w.ctx.additional);
    WriteFails(ctx, s, data);
    if w.result.Ok? {
      FlushOnTheWay(ctx.codec.sent + [f], w.ctx, w.stream);
    }
  }

  lemma ReplyGrows(role: Role, reply: Option<Frame>, before: seq<Frame>, after: seq<Frame>, left: Option<Frame>)
    requires ReplySent(role, reply, before, after, left)
    ensures before <= after
  {
    hide SentAs;
  }

  /** Why a write of a message with room may fail: the stream alone. */
  lemma WriteFails(ctx: Context, s: Stream, data: Bytes)
    requires ctx.state.Active? && HasRoom(ctx, s, FrameWritten(Message.Binary(data)))
    ensures var w := Write(ctx, s, Message.Binary(data));
            && w.ctx.state.Active? && (w.result.Err? ==> w.result.error.Io?)
            && (Calm(s) ==> Calm(w.stream) && (w.result.Err? ==> Blocked(w.result)))
  {
    hide Buffer, SendAdditional, Flush, HasRoom, Calm;
    var f := MessageFrame(data, DataOp.Binary, true);
    BufferReply(ctx, s, f);
    FullIffNoRoom(ctx, s, f);
    var b := Buffer(ctx, s, f);
    ReplyFails(b.ctx, b.stream);
    var a := SendAdditional(b.ctx, b.stream);
    FlushFails(a.ctx, a.stream);
    if Calm(s) {
      BufferCalm(ctx, s, f);
      SendAdditionalCalm(b.ctx, b.stream);
      if b.result.Ok? {
        FlushCalm(a.ctx, a.stream);
      }
    }
  }

  lemma ReplyFails(ctx: Context, s: Stream)
    requires ctx.state.CanRead()
    ensures var a := SendAdditional(ctx, s); a.result.Err? ==> a.result.error.Io?
  {
    hide Buffer;
    if ctx.additional.Some? {
      BufferReply(ctx.(additional := None), s, ctx.additional.value);
    }
  }

  lemma FlushFails(ctx: Context, s: Stream)
    requires ctx.state.CanRead()
    ensures var f := Flush(ctx, s); f.ctx.state == ctx.state && (f.result.Err? ==> f.result.error.Io?)
  {
    hide Flush;
    FlushEnding(ctx, s);
    FlushLeavesReply(ctx, s);
  }

  /** A connection that is not active, or a buffer without room: the send fails and nothing is sent. */
  lemma NotSent(ctx: Context, s: Stream, data: Bytes)
    requires !ctx.state.Active? || !HasRoom(ctx, s, FrameWritten(Message.Binary(data)))
    ensures var d := Send(ctx, s, data);
            d.Dispatched? && d.status.ResourceNotFound? && d.ctx == ctx && d.stream.accepted == s.accepted
  {
    hide Write, HasRoom, SentAs, ReplySent;
    if ctx.state.Active? {
      WriteSendsFrame(ctx, s, Message.Binary(data));
    } else {
      WriteIsRefused(ctx, s, Message.Binary(data));
    }
  }

  /**
   The status of a WebSocket send.  `Sent` means that the message's frame is behind all that was sent before
   and that the stream has taken every byte of it all.  On a stream that fails at most by being blocked, a
   send is `Sent` exactly when the connection is active and the frame has room, or else spins for ever; in
   every other case, a buffer without room included, it is `ResourceNotFound`, never `MaxPacketSizeExceeded`.
   */
  lemma SendMeans(base: Bytes, ctx: Context, s: Stream, data: Bytes)
    requires Accounts(base, ctx, s)
    ensures var d, goes := Send(ctx, s, data), ctx.state.Active? && HasRoom(ctx, s, FrameWritten(Message.Binary(data)));
            && (d.Dispatched? ==> d.status.Sent? || d.status.ResourceNotFound?)
            && (d.Dispatched? && d.status.Sent? ==>
                  && goes && d.stream.accepted == base + Formats(d.ctx.codec.sent)
                  && exists f :: SentAs(ctx.role, FrameWritten(Message.Binary(data)), f)
                       && ctx.codec.sent + [f] <= d.ctx.codec.sent)
            && (!goes ==> d.Dispatched? && d.status.ResourceNotFound? && d.ctx == ctx)
            && (goes && Calm(s) && d.Dispatched? ==> d.status.Sent?)
            && (d.Spins? ==> Stuck(Step(d.ctx, d.stream, Err(Io(WouldBlock)))))
  {
    hide Settle, SendOnce, HasRoom, SentAs, FrameWritten, Calm, Formats;
    var goes := ctx.state.Active? && HasRoom(ctx, s, FrameWritten(Message.Binary(data)));
    if goes {
      var f := SendOnceGoes(ctx, s, data);
      SettleMeans(ctx.codec.sent + [f], SendOnce(ctx, s, data));
      SendAccounts(base, ctx, s, data);
      var d := Send(ctx, s, data);
      if d.Dispatched? && d.status.Sent? {
        assert d.stream.accepted + [] == d.stream.accepted;
      }
    } else {
      NotSent(ctx, s, data);
    }
  }

  lemma SendAccounts(base: Bytes, ctx: Context, s: Stream, data: Bytes)
    requires Accounts(base, ctx, s)
    ensures var d := Send(ctx, s, data); Accounts(base, d.ctx, d.stream)
  {
    hide Write, Flush, Settle, Accounts;
    WriteAccounts(base, ctx, s, Message.Binary(data));
    var w := Write(ctx, s, Message.Binary(data));
    FlushAccounts(base, w.ctx, w.stream);
    SettleAccounts(base, SendOnce(ctx, s, data));
  }

  lemma {:induction false} SettleAccounts(base: Bytes, r: Step<()>)
    requires Accounts(base, r.ctx, r.stream)
    ensures Accounts(base, Settle(r).ctx, Settle(r).stream)
    decreases Answers(r.stream), if Settled(r) then 0 else 1
  {
    hide Flush, Accounts, Answers;
    if r.result == Err(Io(WouldBlock)) && !Stuck(r) {
      FlushUses(r.ctx, r.stream);
      FlushAccounts(base, r.ctx, r.stream);
      SettleAccounts(base, Flush(r.ctx, r.stream));
    }
  }
}

/** The two loops as the adapter runs them on its context. */
module WsRemoteObjects {
  import opened Base
  import opened Streams
  import opened Codecs
  import opened Messages
  import opened Contexts
  import opened ContextObjects
  import opened WsAdapters
  import Remotes

  /** `src/adapters/ws/ws_adapter.rs`, lines 169 to 215. */
  method ReceiveOn(ws: WebSocketContext, stream: Stream) returns (s: Stream, data: seq<Bytes>, status: ReadStatus)
    modifies ws, ws.frame
    ensures Receipt(ws.View(), s, data, status) == Receive(old(ws.View()), stream)
  {
    hide Read, Unread;
    s, data := stream, [];
    while true
      invariant var rest := Receive(ws.View(), s);
                rest.(data := data + rest.data) == Receive(old(ws.View()), stream)
      decreases Unread(ws.View().codec, s)
    {
      var m;
      ReadConsumes(ws.View(), s);
      s, m := ws.Read(s);
      match m {
        case Err(e) =>
          return s, data, if e.Io? then StatusFor(e.kind) else Disconnected;
        case Ok(message) =>
          if message.Close? {
            return s, data, Disconnected;
          }
          if message.Binary? {
            data := data + [message.data];
            var peek := Peek(s);
            if peek.Some? {
              return s, data, StatusFor(peek.value);
            }
          }
      }
    }
  }

  /** `src/adapters/ws/ws_adapter.rs`, lines 218 to 242; no status when the loop would not end. */
  method SendOn(ws: WebSocketContext, stream: Stream, data: Bytes)
    returns (s: Stream, status: Option<Remotes.SendStatus>)
    modifies ws, ws.frame
    ensures Send(old(ws.View()), stream, data)
         == if status.Some? then Dispatched(ws.View(), s, status.value) else Spins(ws.View(), s)
  {
    hide Write, Flush, Answers;
    var result;
    s, result := ws.Write(stream, Message.Binary(data));
    if result.Ok? {
      s, result := ws.Flush(s);
    }
    while result == Err(Io(WouldBlock)) && !(s.writes == [] && ws.frame.output != [])
      invariant Settle(Step(ws.View(), s, result)) == Send(old(ws.View()), stream, data)
      decreases Answers(s), if Settled(Step(ws.View(), s, result)) then 0 else 1
    {
      FlushUses(ws.View(), s);
      s, result := ws.Flush(s);
    }
    status := match result
      case Ok(_) => Some(Remotes.Sent)
      case Err(MessageTooLong(_, _)) => Some(Remotes.MaxPacketSizeExceeded)
      case Err(Io(WouldBlock)) => None
      case Err(_) => Some(Remotes.ResourceNotFound);
  }
}
