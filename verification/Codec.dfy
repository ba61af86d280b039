/**
 The stream under a connection, as a script of what each system call will answer, and the errors of
 `src/adapters/ws/error.rs`.
 */
module Streams {
  import opened Base
  import opened Coding
  import opened Frames
  import opened Masking

  datatype ErrorKind = WouldBlock | ConnectionReset | OtherError

  datatype ProtocolError =
    | InvalidOpcode(number: nat) | SendAfterClosing | ReceivedAfterClosing | NonZeroReservedBits
    | UnmaskedFrameFromClient | MaskedFrameFromServer | FragmentedControlFrame | ControlFrameTooBig
    | UnknownControlFrameType(number: nat) | UnknownDataFrameType(number: nat)
    | UnexpectedContinueFrame | ExpectedFragment(op: DataOp) | InvalidCloseSequence
    | ResetWithoutClosingHandshake

  datatype Error =
    | ConnectionClosed | AlreadyClosed | Io(kind: ErrorKind) | MessageTooLong(size: nat, limit: nat)
    | Violation(error: ProtocolError) | WriteBufferFull(frame: Frame) | Utf8

  datatype Result<+T> = Ok(value: T) | Err(error: Error)

  datatype ReadEvent = Chunk(data: Bytes) | ReadFails(kind: ErrorKind)
  datatype WriteEvent = Accepts(count: nat) | WriteFails(kind: ErrorKind)
  datatype FlushEvent = Flushes | FlushFails(kind: ErrorKind)

  /**
   `incoming`, `writes` and `flushes` are the answers still to come; a script that has run out answers
   `WouldBlock` (and flushes succeed).  An empty chunk is the end of the stream.  `masks` are the random
   masks still to be drawn.  `accepted` is every byte the stream has taken.
   */
  datatype Stream = Stream(incoming: seq<ReadEvent>, writes: seq<WriteEvent>, flushes: seq<FlushEvent>,
                           masks: seq<Mask>, accepted: Bytes)

  /** The bytes that will still arrive. */
  function Arriving(incoming: seq<ReadEvent>): Bytes {
    if incoming == [] then []
    else (if incoming[0].Chunk? then incoming[0].data else []) + Arriving(incoming[1..])
  }
}

/**
 Reading frames from and buffering frames to a stream (`src/adapters/ws/protocol/frame/mod.rs`).
 */
module Codecs {
  import opened Base
  import opened Frames
  import opened Streams

  datatype Announced = Announced(header: Header, length: nat)

  /** `sent` is history: the frames accepted into `output` since the start. */
  datatype Codec = Codec(input: Bytes, announced: Option<Announced>, output: Bytes,
                         maxOutput: nat, writeLen: nat, sent: seq<Frame>)

  // ---------------------------------------------------------------- reading

  /** The frames of a byte stream, read from the start or from behind an announced header. */
  function FramesOf(announced: Option<Announced>, b: Bytes, maxSize: nat): seq<Frame>
    decreases |b|, announced.Some?
  {
    match announced
    case None =>
      var p := ParseHeader(b);
      if p.Parsed? then FramesOf(Some(Announced(p.header, p.length)), b[p.consumed..], maxSize) else []
    case Some(Announced(h, length)) =>
      if length <= maxSize && length <= |b|
      then [Frame(h, b[..length])] + FramesOf(None, b[length..], maxSize)
      else []
  }

  datatype Taken = Short(codec: Codec) | Whole(codec: Codec, frame: Frame) | Refused(codec: Codec, error: Error)

  function TakePayload(c: Codec, maxSize: nat): Taken
    requires c.announced.Some?
  {
    var Announced(h, length) := c.announced.value;
    if length > maxSize then Refused(c, MessageTooLong(length, maxSize))
    else if length <= |c.input|
    then Whole(c.(input := c.input[length..], announced := None), Frame(h, c.input[..length]))
    else Short(c)
  }

  /** One attempt on what has been read so far. */
  function TakeFrame(c: Codec, maxSize: nat): Taken {
    if c.announced.Some? then TakePayload(c, maxSize)
    else
      match ParseHeader(c.input)
      case NeedMore => Short(c)
      case BadOpcode(n, used) => Refused(c.(input := c.input[used..]), Violation(InvalidOpcode(n)))
      case Parsed(h, length, used) =>
        TakePayload(c.(input := c.input[used..], announced := Some(Announced(h, length))), maxSize)
  }

  datatype FrameRead = FrameRead(codec: Codec, stream: Stream, result: Result<Option<Frame>>)

  function ReadFrame(c: Codec, s: Stream, maxSize: nat): (r: FrameRead)
    ensures r.codec == c.(input := r.codec.input, announced := r.codec.announced)
    ensures r.stream == s.(incoming := r.stream.incoming)
    decreases |s.incoming|
  {
    match TakeFrame(c, maxSize)
    case Whole(c', f) => FrameRead(c', s, Ok(Some(f)))
    case Refused(c', e) => FrameRead(c', s, Err(e))
    case Short(c') =>
      if s.incoming == [] then FrameRead(c', s, Err(Io(WouldBlock)))
      else
        var s' := s.(incoming := s.incoming[1..]);
        match s.incoming[0]
        case ReadFails(kind) => FrameRead(c', s', Err(Io(kind)))
        case Chunk(data) =>
          if data == [] then FrameRead(c', s', Ok(None))
          else ReadFrame(c'.(input := c'.input + data), s', maxSize)
  }

  /** The frames still to be had: those of the unread input and of what will arrive. */
  function Pending(c: Codec, s: Stream, maxSize: nat): seq<Frame> {
    FramesOf(c.announced, c.input + Arriving(s.incoming), maxSize)
  }

  lemma TakePayloadPending(c: Codec, more: Bytes, maxSize: nat)
    requires c.announced.Some?
    ensures var t := TakePayload(c, maxSize);
            FramesOf(c.announced, c.input + more, maxSize)
            == (if t.Whole? then [t.frame] else []) + FramesOf(t.codec.announced, t.codec.input + more, maxSize)
    ensures var t := TakePayload(c, maxSize);
            if t.Whole? then |t.frame.payload| <= maxSize
            else FramesOf(t.codec.announced, t.codec.input, maxSize) == []
  {
    hide ParseHeader;
    var length := c.announced.value.length;
    if length <= maxSize && length <= |c.input| {
      assert (c.input + more)[..length] == c.input[..length];
      assert (c.input + more)[length..] == c.input[length..] + more;
    }
  }

  /** An attempt gives the first pending frame and leaves the others, or leaves them all. */
  lemma TakeFramePending(c: Codec, more: Bytes, maxSize: nat)
    ensures var t := TakeFrame(c, maxSize);
            (t.Refused? ==> !t.error.Violation?) ==>
            FramesOf(c.announced, c.input + more, maxSize)
            == (if t.Whole? then [t.frame] else []) + FramesOf(t.codec.announced, t.codec.input + more, maxSize)
    ensures var t := TakeFrame(c, maxSize); t.Whole? ==> |t.frame.payload| <= maxSize
    ensures var t := TakeFrame(c, maxSize);
            t.Short? ==> FramesOf(t.codec.announced, t.codec.input, maxSize) == []
    ensures var t := TakeFrame(c, maxSize); t.Refused? ==> !t.error.Io?
  {
    hide ParseHeader;
    if c.announced.Some? {
      TakePayloadPending(c, more, maxSize);
    } else {
      ParseStable(c.input, more);
      var p := ParseHeader(c.input);
      if p.Parsed? {
        assert (c.input + more)[p.consumed..] == c.input[p.consumed..] + more;
        TakePayloadPending(
          c.(input := c.input[p.consumed..], announced := Some(Announced(p.header, p.length))), more, maxSize);
      }
    }
  }

  predicate Harmless(r: Result<Option<Frame>>) {
    r.Ok? || !r.error.Violation?
  }

  function Got(r: Result<Option<Frame>>): seq<Frame> {
    if r.Ok? && r.value.Some? then [r.value.value] else []
  }

  /**
   `read_frame` delivers the first pending frame or leaves every pending frame pending, however the bytes
   arrive; it never delivers more than `maxSize` bytes; and when it blocks on a stream from which nothing
   more arrives, nothing is pending.
   */
  lemma {:induction false} ReadFramePending(c: Codec, s: Stream, maxSize: nat)
    ensures var r := ReadFrame(c, s, maxSize);
            && (Harmless(r.result) ==> Pending(c, s, maxSize) == Got(r.result) + Pending(r.codec, r.stream, maxSize))
            && (Got(r.result) != [] ==> |Got(r.result)[0].payload| <= maxSize)
            && (r.result == Err(Io(WouldBlock)) && r.stream.incoming == [] ==>
                  Pending(r.codec, r.stream, maxSize) == [])
    decreases |s.incoming|
  {
    hide FramesOf, TakeFrame;
    TakeFramePending(c, Arriving(s.incoming), maxSize);
    var t := TakeFrame(c, maxSize);
    if t.Short? {
      assert t.codec.input + Arriving([]) == t.codec.input;
      if s.incoming != [] {
        var s' := s.(incoming := s.incoming[1..]);
        match s.incoming[0]
        case ReadFails(kind) => assert Arriving(s.incoming) == [] + Arriving(s'.incoming) == Arriving(s'.incoming);
        case Chunk(data) =>
          if data == [] {
            assert Arriving(s.incoming) == [] + Arriving(s'.incoming) == Arriving(s'.incoming);
          } else {
            ReadFramePending(t.codec.(input := t.codec.input + data), s', maxSize);
            assert t.codec.input + Arriving(s.incoming) == t.codec.input + data + Arriving(s'.incoming);
          }
      }
    }
  }

  /** Twice the bytes not yet consumed, and one for a header already consumed. */
  function Unread(c: Codec, s: Stream): nat {
    2 * (|c.input| + |Arriving(s.incoming)|) + if c.announced.Some? then 1 else 0
  }

  /** A frame leaves less to consume; an announced header costs more than it adds. */
  lemma TakeFrameProgress(c: Codec, s: Stream, maxSize: nat)
    ensures var t := TakeFrame(c, maxSize);
            && (t.Whole? ==> Unread(t.codec, s) < Unread(c, s))
            && (t.Short? ==> Unread(t.codec, s) <= Unread(c, s))
  {
    hide ParseHeader;
    if c.announced.Some? {
      assert c.announced.value.length >= 0;
    } else {
      var p := ParseHeader(c.input);
      assert p.Parsed? ==> p.consumed >= 2 && p.length >= 0;
    }
  }

  lemma {:induction false} ReadFrameProgress(c: Codec, s: Stream, maxSize: nat)
    ensures var r := ReadFrame(c, s, maxSize);
            r.result.Ok? && r.result.value.Some? ==> Unread(r.codec, r.stream) < Unread(c, s)
    decreases |s.incoming|
  {
    hide TakeFrame;
    TakeFrameProgress(c, s, maxSize);
    var t := TakeFrame(c, maxSize);
    if t.Short? && s.incoming != [] && s.incoming[0].Chunk? && s.incoming[0].data != [] {
      var c', s' := t.codec.(input := t.codec.input + s.incoming[0].data), s.(incoming := s.incoming[1..]);
      assert Unread(c', s') == Unread(t.codec, s);
      ReadFrameProgress(c', s', maxSize);
    }
  }

  datatype FrameReads = FrameReads(codec: Codec, stream: Stream, results: seq<Result<Option<Frame>>>)

  function ReadFrames(c: Codec, s: Stream, maxSize: nat, calls: nat): (r: FrameReads)
    ensures |r.results| == calls
    decreases calls
  {
    if calls == 0 then FrameReads(c, s, [])
    else
      var first := ReadFrame(c, s, maxSize);
      var others := ReadFrames(first.codec, first.stream, maxSize, calls - 1);
      FrameReads(others.codec, others.stream, [first.result] + others.results)
  }

  function AllGot(results: seq<Result<Option<Frame>>>): seq<Frame> {
    if results == [] then [] else Got(results[0]) + AllGot(results[1..])
  }

  /**
   Any number of calls over any chunking, with any interruptions: the frames delivered, followed by those
   still pending, are the frames of the whole stream.
   */
  lemma {:induction false} ReadFramesRefineStream(c: Codec, s: Stream, maxSize: nat, calls: nat)
    requires forall x | x in ReadFrames(c, s, maxSize, calls).results :: Harmless(x)
    ensures var r := ReadFrames(c, s, maxSize, calls);
            && Pending(c, s, maxSize) == AllGot(r.results) + Pending(r.codec, r.stream, maxSize)
            && forall f | f in AllGot(r.results) :: |f.payload| <= maxSize
    decreases calls
  {
    hide ReadFrame, Pending;
    if calls > 0 {
      var all := ReadFrames(c, s, maxSize, calls).results;
      var first := ReadFrame(c, s, maxSize);
      var others := ReadFrames(first.codec, first.stream, maxSize, calls - 1).results;
      assert all == [first.result] + others;
      ReadFramePending(c, s, maxSize);
      assert first.result in all;
      ReadFramesRefineStream(first.codec, first.stream, maxSize, calls - 1);
      assert all[1..] == others;
    }
  }

  // ---------------------------------------------------------------- writing

  datatype Drained = Drained(output: Bytes, stream: Stream, failure: Option<ErrorKind>)

  /** Write until the buffer is empty or the stream refuses; taking nothing counts as a reset. */
  function WriteOut(output: Bytes, s: Stream): (d: Drained)
    ensures d.stream.incoming == s.incoming && |s.accepted| <= |d.stream.accepted|
    decreases |output|
  {
    if output == [] then Drained([], s, None)
    else if s.writes == [] then Drained(output, s, Some(WouldBlock))
    else
      var s' := s.(writes := s.writes[1..]);
      match s.writes[0]
      case WriteFails(kind) => Drained(output, s', Some(kind))
      case Accepts(count) =>
        if count == 0 then Drained(output, s', Some(ConnectionReset))
        else
          var n := Min(count, |output|);
          WriteOut(output[n..], s'.(accepted := s'.accepted + output[..n]))
  }

  datatype Buffered = Buffered(codec: Codec, stream: Stream, result: Result<()>)

  function WriteOutBuffer(c: Codec, s: Stream): (b: Buffered)
    ensures b.codec == c.(output := b.codec.output) && b.stream.incoming == s.incoming
    ensures |s.accepted| <= |b.stream.accepted|
    ensures b.result.Err? ==> b.result.error.Io?
  {
    var d := WriteOut(c.output, s);
    Buffered(c.(output := d.output), d.stream, if d.failure.Some? then Err(Io(d.failure.value)) else Ok(()))
  }

  function Appended(c: Codec, f: Frame): Codec {
    c.(output := c.output + FormatFrame(f), sent := c.sent + [f])
  }

  /** A frame that does not fit is refused whole; any other is in the buffer, whatever the stream says. */
  function BufferFrame(c: Codec, s: Stream, f: Frame): (b: Buffered)
    ensures b.codec == c.(output := b.codec.output, sent := b.codec.sent) && b.stream.incoming == s.incoming
    ensures |s.accepted| <= |b.stream.accepted|
  {
    if f.Len() + |c.output| > c.maxOutput then Buffered(c, s, Err(WriteBufferFull(f)))
    else
      var c' := Appended(c, f);
      if |c'.output| > c'.writeLen then WriteOutBuffer(c', s) else Buffered(c', s, Ok(()))
  }

  function Formats(frames: seq<Frame>): Bytes {
    if frames == [] then [] else FormatFrame(frames[0]) + Formats(frames[1..])
  }

  lemma {:induction false} FormatsAppend(a: seq<Frame>, b: seq<Frame>)
    ensures Formats(a + b) == Formats(a) + Formats(b)
  {
    hide FormatFrame;
    if a == [] {
      assert a + b == b;
    } else {
      assert (a + b)[1..] == a[1..] + b;
      FormatsAppend(a[1..], b);
    }
  }

  /** Bytes taken by the stream, then bytes buffered, are the accepted frames in order. */
  ghost predicate Conserved(base: Bytes, c: Codec, s: Stream) {
    s.accepted + c.output == base + Formats(c.sent)
  }

  lemma {:induction false} WriteOutConserves(output: Bytes, s: Stream)
    ensures var d := WriteOut(output, s);
            && d.stream.accepted + d.output == s.accepted + output
            && |d.output| <= |output|
            && (d.failure.None? ==> d.output == [])
            && d.stream.masks == s.masks
    decreases |output|
  {
    if output != [] && s.writes != [] && s.writes[0].Accepts? && s.writes[0].count > 0 {
      var n := Min(s.writes[0].count, |output|);
      var s' := s.(writes := s.writes[1..], accepted := s.accepted + output[..n]);
      WriteOutConserves(output[n..], s');
      assert s.accepted + output == s'.accepted + output[n..];
    }
  }

  /** Buffering keeps the accounts, the limit and the reading side; only a full buffer turns a frame away. */
  lemma BufferFrameConserves(base: Bytes, c: Codec, s: Stream, f: Frame)
    requires Conserved(base, c, s)
    ensures var b := BufferFrame(c, s, f);
            && Conserved(base, b.codec, b.stream)
            && (|c.output| <= c.maxOutput ==> |b.codec.output| <= c.maxOutput)
            && b.codec.sent == (if f.Len() + |c.output| > c.maxOutput then c.sent else c.sent + [f])
            && (b.result.Err? && b.result.error.WriteBufferFull? <==> f.Len() + |c.output| > c.maxOutput)
  {
    hide Appended, Formats, WriteOut;
    AppendedConserves(base, c, s, f);
    WriteOutConserves(Appended(c, f).output, s);
  }

  lemma FormatsSnoc(frames: seq<Frame>, f: Frame)
    ensures Formats(frames + [f]) == Formats(frames) + FormatFrame(f)
  {
    hide FormatFrame;
    FormatsAppend(frames, [f]);
    assert [f][1..] == [];
    assert Formats([f]) == FormatFrame(f);
  }

  lemma Reassociate(x: Bytes, y: Bytes, z: Bytes)
    ensures x + (y + z) == (x + y) + z
  {
  }

  lemma AppendedConserves(base: Bytes, c: Codec, s: Stream, f: Frame)
    requires Conserved(base, c, s)
    ensures var c' := Appended(c, f);
            && Conserved(base, c', s)
            && |c'.output| == |c.output| + f.Len()
            && c' == c.(output := c'.output, sent := c.sent + [f])
  {
    hide FormatFrame, Formats;
    FrameLenIsFormatted(f);
    FormatsSnoc(c.sent, f);
    Reassociate(s.accepted, c.output, FormatFrame(f));
    Reassociate(base, Formats(c.sent), FormatFrame(f));
  }
}

/** The codec as the object that `src/adapters/ws/protocol/frame/mod.rs` updates in place. */
module CodecObjects {
  import opened Base
  import opened Frames
  import opened Streams
  import opened Codecs

  class FrameCodec {
    var input: Bytes
    var output: Bytes
    var maxOutput: nat
    var writeLen: nat
    var announced: Option<Announced>
    ghost var sent: seq<Frame>

    ghost function View(): Codec
      reads this
    {
      Codec(input, announced, output, maxOutput, writeLen, sent)
    }

    constructor (part: Bytes)
      ensures View() == Codec(part, None, [], USIZE_MAX, 0, [])
    {
      input, output, maxOutput, writeLen, announced, sent := part, [], USIZE_MAX, 0, None, [];
    }

    method SetLimits(maxOutput: nat, writeLen: nat)
      modifies this
      ensures View() == old(View()).(maxOutput := maxOutput, writeLen := writeLen)
    {
      this.maxOutput, this.writeLen := maxOutput, writeLen;
    }

    method ReadFrame(stream: Stream, maxSize: Option<nat>) returns (s: Stream, r: Result<Option<Frame>>)
      modifies this
      ensures var limit := if maxSize.Some? then maxSize.value else USIZE_MAX;
              FrameRead(View(), s, r) == Codecs.ReadFrame(old(View()), stream, limit)
    {
      hide FormatFrame;
      var limit := if maxSize.Some? then maxSize.value else USIZE_MAX;
      s := stream;
      while true
        invariant sent == old(sent)
        invariant Codecs.ReadFrame(View(), s, limit) == Codecs.ReadFrame(old(View()), stream, limit)
        decreases |s.incoming|
      {
        ghost var t := TakeFrame(View(), limit);
        if announced.None? {
          var p := ParseHeader(input);
          match p {
            case NeedMore =>
            case BadOpcode(n, used) =>
              input := input[used..];
              return s, Err(Violation(InvalidOpcode(n)));
            case Parsed(h, length, used) =>
              input := input[used..];
              announced := Some(Announced(h, length));
          }
        }
        if announced.Some? {
          var length := announced.value.length;
          if length > limit {
            return s, Err(MessageTooLong(length, limit));
          }
          if length <= |input| {
            var frame := Frame(announced.value.header, input[..length]);
            input, announced := input[length..], None;
            return s, Ok(Some(frame));
          }
        }
        assert t == Short(View());
        if s.incoming == [] {
          return s, Err(Io(WouldBlock));
        }
        var event := s.incoming[0];
        s := s.(incoming := s.incoming[1..]);
        match event {
          case ReadFails(kind) => return s, Err(Io(kind));
          case Chunk(data) =>
            if data == [] {
              return s, Ok(None);
            }
            input := input + data;
        }
      }
    }

    method WriteOutBuffer(stream: Stream) returns (s: Stream, r: Result<()>)
      modifies this
      ensures Buffered(View(), s, r) == Codecs.WriteOutBuffer(old(View()), stream)
    {
      s := stream;
      while output != []
        invariant View() == old(View()).(output := output)
        invariant WriteOut(output, s) == WriteOut(old(output), stream)
        decreases |output|
      {
        if s.writes == [] {
          return s, Err(Io(WouldBlock));
        }
        var event := s.writes[0];
        s := s.(writes := s.writes[1..]);
        match event {
          case WriteFails(kind) => return s, Err(Io(kind));
          case Accepts(count) =>
            if count == 0 {
              return s, Err(Io(ConnectionReset));
            }
            var n := Min(count, |output|);
            s := s.(accepted := s.accepted + output[..n]);
            output := output[n..];
        }
      }
      return s, Ok(());
    }

    method BufferFrame(stream: Stream, frame: Frame) returns (s: Stream, r: Result<()>)
      modifies this
      ensures Buffered(View(), s, r) == Codecs.BufferFrame(old(View()), stream, frame)
    {
      hide FormatFrame, WriteOut;
      if frame.Len() + |output| > maxOutput {
        return stream, Err(WriteBufferFull(frame));
      }
      output := output + FormatFrame(frame);
      sent := sent + [frame];
      if |output| > writeLen {
        s, r := WriteOutBuffer(stream);
      } else {
        s, r := stream, Ok(());
      }
    }
  }
}
