/**
 Which frames a connection takes, and that it takes every correct one: fragments of messages, with control
 frames between them, from the wire to the reader (section 5.4 of RFC 6455).
 */
module Fragments {
  import opened Base
  import opened Coding
  import Masking
  import opened Frames
  import opened Streams
  import opened Codecs
  import opened Utf8Text
  import opened Messages
  import opened Contexts
  import opened Sessions
  import opened Closing
  import opened Ending
  import opened Reading
  import opened EndToEnd

  // ---------------------------------------------------------------- text that is not complete yet

  /** Some bytes behind it would make it well-formed text. */
  ghost predicate MayBecomeText(total: Bytes) {
    exists more: Bytes :: WellFormed(total + more)
  }

  /** The bytes that complete an unfinished character. */
  function Filling(b: Bytes): Bytes
    requires b != [] && LeadOf(b).Partial?
  {
    var second := if b[0] == 0xE0 then 0xA0 else if b[0] == 0xF0 then 0x90 else 0x80;
    var n := SequenceLen(b[0]);
    if |b| == 1 then [second] + seq(n - 2, _ => 0x80) else seq(n - |b|, _ => 0x80)
  }

  lemma FilledIsChar(b: Bytes)
    requires b != [] && LeadOf(b).Partial?
    ensures LeadOf(b + Filling(b)) == Char(|b + Filling(b)|)
  {
  }

  lemma CharIsWhole(b: Bytes)
    requires b != [] && LeadOf(b) == Char(|b|)
    ensures Decode(b).Whole?
  {
    hide LeadOf;
    DecodeUnfolds(b);
    assert b[|b|..] == [];
  }

  /** A text is collected exactly while it may become well formed. */
  lemma CollectsIff(total: Bytes)
    ensures CollectorOf(total).Some? <==> MayBecomeText(total)
  {
    hide LeadOf, Decode, Filling, CollectorOf, WellFormed;
    if CollectorOf(total).Some? {
      var more := CompletesText(total);
      assert WellFormed(total + more);
    } else if MayBecomeText(total) {
      var more: Bytes :| WellFormed(total + more);
      HopelessStays(total, more);
      WholeCollects(total + more);
    }
  }

  lemma WholeCollects(total: Bytes)
    requires WellFormed(total)
    ensures CollectorOf(total).Some?
  {
    hide LeadOf, Decode, WellFormed;
    WholeIsWellFormed(total);
  }

  lemma CompletesText(total: Bytes) returns (more: Bytes)
    requires CollectorOf(total).Some?
    ensures WellFormed(total + more)
  {
    hide LeadOf, Decode, Filling, WellFormed;
    var d := Decode(total);
    if d.Whole? {
      more := [];
      assert total + more == total;
    } else {
      DecodeParts(total);
      var rest := total[d.valid..];
      more := Filling(rest);
      FilledIsChar(rest);
      CharIsWhole(rest + more);
      DecodeAppend(total, more);
    }
    WholeIsWellFormed(total + more);
  }

  // ---------------------------------------------------------------- which frames are taken

  /** The data of a message so far, ending here or not, is something a message can be. */
  ghost predicate MayStand(limit: nat, g: Group, fin: bool) {
    && |g.total| <= limit
    && (g.text ==> if fin then WellFormed(g.total) else MayBecomeText(g.total))
  }

  /** A data frame that may come next. */
  ghost predicate MayFollow(limit: nat, group: Option<Group>, f: Frame)
    requires f.header.opcode.Data?
  {
    Join(group, f).Some? && MayStand(limit, Join(group, f).value, f.header.fin)
  }

  /** What growing by a frame and, at the end, completing answer. */
  lemma GrowthIs(m: Incomplete, g: Group, tail: Bytes, limit: nat)
    requires Collected(m, g.text, g.total)
    ensures var total := g.(total := g.total + tail);
            var grown := ExtendMessage(m, tail, limit);
            && (grown.result.Ok? <==> MayStand(limit, total, false))
            && (|total.total| > limit ==> grown.result == Err(MessageTooLong(|total.total|, limit)))
            && (|total.total| <= limit && grown.result.Err? ==> grown.result == Err(Utf8))
            && (grown.result.Ok? ==>
                  && (CompleteMessage(grown.message).Ok? <==> MayStand(limit, total, true))
                  && (CompleteMessage(grown.message).Err? ==> CompleteMessage(grown.message) == Err(Utf8)))
            && (MayStand(limit, total, true) ==> MayStand(limit, total, false))
  {
    hide ExtendText, CollectorOf, WellFormed, MayBecomeText;
    var all := g.total + tail;
    MessageCollects(m, g.text, g.total, tail, limit);
    CollectsIff(all);
    LengthCollected(m, g);
    if WellFormed(all) {
      WholeCollects(all);
    }
    var grown := ExtendMessage(m, tail, limit);
    if grown.result.Ok? {
      MessageCollects(grown.message, g.text, all, [], limit);
    }
  }

  lemma LengthCollected(m: Incomplete, g: Group)
    requires Collected(m, g.text, g.total)
    ensures m.Len() == |g.total|
  {
    hide LeadOf, Decode, ExtendText;
    if g.text {
      ExtendTextCollects(g.total, m.collector, []);
    }
  }

  /** The growth of the open message, or of a new one. */
  lemma StartCollects(f: Frame)
    requires f.header.opcode in {Data(DataOp.Text), Data(DataOp.Binary)}
    ensures var text := f.Is(Data(DataOp.Text));
            Collected(if text then IncompleteText(EMPTY_COLLECTOR) else IncompleteBinary([]), text, [])
    ensures [] + f.payload == f.payload
  {
    EmptyCollects(f.Is(Data(DataOp.Text)));
  }

  /**
   A data frame is taken if and only if it opens a message when none is open, or continues the open one; the
   message is within the limit; and text can still become well formed, or is when the frame is the last.
   */
  lemma DataFrameTakenIff(ctx: Context, f: Frame, group: Option<Group>)
    requires f.header.opcode.Data? && Holds(ctx, group)
    ensures HandleData(ctx, f).result.Ok? <==> MayFollow(ctx.config.MessageLimit(), group, f)
  {
    hide ExtendMessage, CompleteMessage, Collected, MayStand;
    var op, limit := f.header.opcode.data, ctx.config.MessageLimit();
    if op.Continue? && group.Some? {
      GrowthIs(ctx.incomplete.value, group.value, f.payload, limit);
    } else if group.None? && !op.ReservedData? && !op.Continue? {
      StartCollects(f);
      var start := if op.Text? then IncompleteText(EMPTY_COLLECTOR) else IncompleteBinary([]);
      GrowthIs(start, Group(op.Text?, []), f.payload, limit);
    }
  }

  /** Why a data frame is not taken. */
  function Refusal(limit: nat, group: Option<Group>, f: Frame): Error
    requires f.header.opcode.Data?
  {
    match (group, f.header.opcode.data)
    case (None, Continue) => Violation(UnexpectedContinueFrame)
    case (Some(_), Text) => Violation(ExpectedFragment(DataOp.Text))
    case (Some(_), Binary) => Violation(ExpectedFragment(DataOp.Binary))
    case (Some(_), ReservedData(i)) => Violation(ExpectedFragment(ReservedData(i)))
    case (None, ReservedData(i)) => Violation(UnknownDataFrameType(i))
    case _ =>
      var total := Join(group, f).value.total;
      if |total| > limit then MessageTooLong(|total|, limit) else Utf8
  }

  lemma DataFrameRefused(ctx: Context, f: Frame, group: Option<Group>)
    requires f.header.opcode.Data? && Holds(ctx, group)
    ensures var h := HandleData(ctx, f);
            h.result.Err? ==> h.result.error == Refusal(ctx.config.MessageLimit(), group, f)
  {
    hide ExtendMessage, CompleteMessage, Collected, MayStand;
    var op, limit := f.header.opcode.data, ctx.config.MessageLimit();
    if op.Continue? && group.Some? {
      GrowthIs(ctx.incomplete.value, group.value, f.payload, limit);
      StandsWithin(limit, Join(group, f).value);
    } else if group.None? && !op.ReservedData? && !op.Continue? {
      StartCollects(f);
      var start := if op.Text? then IncompleteText(EMPTY_COLLECTOR) else IncompleteBinary([]);
      GrowthIs(start, Group(op.Text?, []), f.payload, limit);
      StandsWithin(limit, Join(group, f).value);
    }
  }

  lemma StandsWithin(limit: nat, g: Group)
    ensures MayStand(limit, g, false) ==> |g.total| <= limit
  {
  }

  /** No reserved bit, and masked as the receiver wants it. */
  predicate Admissible(role: Role, acceptUnmasked: bool, h: Header) {
    && !h.rsv1 && !h.rsv2 && !h.rsv3
    && (if role.Client? then h.mask.None? else h.mask.Some? || acceptUnmasked)
  }

  /** A Close, Ping or Pong in one frame of at most 125 bytes; a Close says nothing or at least a code. */
  predicate IsControl(f: Frame) {
    && f.header.opcode in {CLOSE, PING, PONG}
    && f.header.fin && |f.payload| <= 125
    && (f.header.opcode == CLOSE ==> |f.payload| != 1)
  }

  lemma ControlTakenIff(ctx: Context, f: Frame)
    requires f.header.opcode.Control? && ctx.state.CanRead()
    ensures HandleControl(ctx, f).result.Ok? <==> IsControl(f)
  {
    hide CloseCodeOf;
  }

  lemma PlainIsSame(role: Role, f: Frame)
    ensures var p := Plain(role, f);
            p.header == f.header.(mask := p.header.mask) && |p.payload| == |f.payload|
  {
  }

  lemma PlainControl(role: Role, f: Frame)
    ensures IsControl(Plain(role, f)) <==> IsControl(f)
  {
    hide Plain;
    PlainIsSame(role, f);
  }

  /**
   Every frame, as it is received: it is taken if and only if the connection can still be read, no reserved
   bit is set, the mask is as it should be, and it is a proper control frame or a data frame that may follow.
   */
  lemma FrameTakenIff(ctx: Context, f: Frame, group: Option<Group>)
    requires Holds(ctx, group)
    ensures HandleFrame(ctx, f).result.Ok?
       <==> && ctx.state.CanRead() && Admissible(ctx.role, ctx.config.acceptUnmasked, f.header)
            && (if f.header.opcode.Control? then IsControl(f)
                else MayFollow(ctx.config.MessageLimit(), group, Plain(ctx.role, f)))
  {
    hide HandleData, HandleControl, Holds, MayFollow, IsControl;
    if ctx.state.CanRead() && Open(ctx.role, ctx.config.acceptUnmasked, f).Opened? {
      var p := Plain(ctx.role, f);
      PlainIsSame(ctx.role, f);
      PlainControl(ctx.role, f);
      assert Open(ctx.role, ctx.config.acceptUnmasked, f).frame == p;
      if p.header.opcode.Control? {
        ControlTakenIff(ctx, p);
      } else {
        DataFrameTakenIff(ctx, p, group);
      }
    }
  }

  /** Each refused frame is refused for the first of these reasons that applies. */
  lemma RefusalIsNamed(ctx: Context, f: Frame, group: Option<Group>)
    requires Holds(ctx, group) && HandleFrame(ctx, f).result.Err?
    ensures var e, h := HandleFrame(ctx, f).result.error, f.header;
            if !ctx.state.CanRead() then e == Violation(ReceivedAfterClosing)
            else if h.rsv1 || h.rsv2 || h.rsv3 then e == Violation(NonZeroReservedBits)
            else if !Admissible(ctx.role, ctx.config.acceptUnmasked, h) then
              e == Violation(if ctx.role.Client? then MaskedFrameFromServer else UnmaskedFrameFromClient)
            else if h.opcode.Data? then e == Refusal(ctx.config.MessageLimit(), group, Plain(ctx.role, f))
            else if !h.fin then e == Violation(FragmentedControlFrame)
            else if |f.payload| > 125 then e == Violation(ControlFrameTooBig)
            else if h.opcode.IsReserved() then e == Violation(UnknownControlFrameType(h.opcode.control.code))
            else e == Violation(InvalidCloseSequence) && f.Is(CLOSE) && |f.payload| == 1
  {
    hide HandleData, HandleControl, Holds, Refusal;
    var p := Plain(ctx.role, f);
    PlainIsSame(ctx.role, f);
    if ctx.state.CanRead() && Open(ctx.role, ctx.config.acceptUnmasked, f).Opened? {
      assert Open(ctx.role, ctx.config.acceptUnmasked, f).frame == p;
      if p.header.opcode.Data? {
        DataFrameRefused(ctx, p, group);
      } else {
        ControlRefused(ctx, p);
      }
    }
  }

  lemma ControlRefused(ctx: Context, f: Frame)
    requires f.header.opcode.Control? && ctx.state.CanRead() && HandleControl(ctx, f).result.Err?
    ensures var e, h := HandleControl(ctx, f).result.error, f.header;
            if !h.fin then e == Violation(FragmentedControlFrame)
            else if |f.payload| > 125 then e == Violation(ControlFrameTooBig)
            else if h.opcode.IsReserved() then e == Violation(UnknownControlFrameType(h.opcode.control.code))
            else e == Violation(InvalidCloseSequence) && f.Is(CLOSE) && |f.payload| == 1
  {
    hide CloseCodeOf;
  }

  // ---------------------------------------------------------------- a wire of fragments and control frames

  /** A frame as a writer of this role makes it for a reader of this configuration: data, a Ping or a Pong. */
  predicate Proper(config: Config, writer: Role, f: Frame) {
    && !f.header.rsv1 && !f.header.rsv2 && !f.header.rsv3 && (f.header.mask.Some? <==> writer.Client?)
    && Fits(f, config.FrameLimit())
    && (f.header.opcode.Control? ==> f.header.opcode in {PING, PONG} && f.header.fin && |f.payload| <= 125)
  }

  predicate AllProper(config: Config, writer: Role, frames: seq<Frame>) {
    forall i | 0 <= i < |frames| :: Proper(config, writer, frames[i])
  }

  /** The group open behind a data frame. */
  function GroupBehind(group: Option<Group>, f: Frame): Option<Group>
    requires f.header.opcode.Data?
  {
    if f.header.fin then None else Join(group, f)
  }

  /** Each of these data frames may follow those before it. */
  ghost predicate Follow(limit: nat, group: Option<Group>, frames: seq<Frame>)
    decreases frames
  {
    frames != [] && frames[0].header.opcode.Data?
    ==> MayFollow(limit, group, frames[0]) && Follow(limit, GroupBehind(group, frames[0]), frames[1..])
  }

  function ControlMessage(f: Frame): Message {
    if f.Is(PING) then Message.Ping(f.payload) else Message.Pong(f.payload)
  }

  /** What the frames say, as their writer made them: messages at their last fragment, and control messages. */
  function Told(group: Option<Group>, frames: seq<Frame>): seq<Message>
    decreases frames
  {
    if frames == [] then []
    else if frames[0].header.opcode.Control? then [ControlMessage(frames[0])] + Told(group, frames[1..])
    else
      (if frames[0].header.fin && Join(group, frames[0]).Some?
       then [Join(group, frames[0]).value.AsMessage()] else [])
      + Told(GroupBehind(group, frames[0]), frames[1..])
  }

  /** Writes and flushes of the stream fail at most by being blocked. */
  predicate Calm(s: Stream) {
    && (forall e | e in s.writes :: if e.Accepts? then e.count > 0 else e.kind.WouldBlock?)
    && (forall e | e in s.flushes :: e.FlushFails? ==> e.kind.WouldBlock?)
  }

  predicate Blocked<T>(r: Result<T>) {
    r.Err? && r.error == Io(WouldBlock)
  }

  lemma {:induction false} WriteOutCalm(output: Bytes, s: Stream)
    requires Calm(s)
    ensures var d := WriteOut(output, s);
            Calm(d.stream) && (d.failure.Some? ==> d.failure.value.WouldBlock?)
    decreases |output|
  {
    if output != [] && s.writes != [] {
      assert s.writes[0] in s.writes;
      var s' := s.(writes := s.writes[1..]);
      assert Calm(s');
      if s.writes[0].Accepts? {
        var n := Min(s.writes[0].count, |output|);
        WriteOutCalm(output[n..], s'.(accepted := s.accepted + output[..n]));
      }
    }
  }

  lemma BufferCalm(ctx: Context, s: Stream, f: Frame)
    requires Calm(s)
    ensures var b := Buffer(ctx, s, f); Calm(b.stream) && (b.result.Err? ==> Blocked(b.result) || Full(b.result))
  {
    hide FormatFrame, WriteOut;
    var (f', s') := Prepared(ctx.role, s, f);
    assert Calm(s');
    WriteOutCalm(Appended(ctx.codec, f').output, s');
  }

  lemma SendAdditionalCalm(ctx: Context, s: Stream)
    requires Calm(s)
    ensures var a := SendAdditional(ctx, s); Calm(a.stream) && (a.result.Err? ==> Blocked(a.result))
  {
    hide Buffer, Calm;
    if ctx.additional.Some? {
      BufferCalm(ctx.(additional := None), s, ctx.additional.value);
    }
  }

  lemma FlushStreamCalm(s: Stream)
    requires Calm(s)
    ensures var f := FlushStream(s); Calm(f.0) && (f.1.Err? ==> Blocked(f.1))
  {
    if s.flushes != [] {
      assert s.flushes[0] in s.flushes;
    }
  }

  lemma FlushCalm(ctx: Context, s: Stream)
    requires Calm(s) && ctx.state.CanRead()
    ensures var f := Flush(ctx, s);
            Calm(f.stream) && f.ctx.state == ctx.state && (f.result.Err? ==> Blocked(f.result))
  {
    hide SendAdditional, WriteOut, Calm, FlushStream;
    SendAdditionalCalm(ctx, s);
    var a := SendAdditional(ctx, s);
    WriteOutCalm(a.ctx.codec.output, a.stream);
    FlushStreamCalm(WriteOut(a.ctx.codec.output, a.stream).stream);
  }

  /** Before a frame is read, a pending reply is pushed out as far as it goes. */
  lemma BeforeReadCalm(ctx: Context, s: Stream)
    requires Calm(s) && ctx.state.CanRead()
    ensures var b := BeforeRead(ctx, s); Calm(b.stream) && b.ctx.state == ctx.state && b.result.Ok?
  {
    hide Flush, Calm;
    FlushCalm(ctx, s);
  }

  // ---------------------------------------------------------------- one frame

  /** A reader in front of these frames, with this message open. */
  ghost predicate Reader(ctx: Context, s: Stream, missing: Bytes, group: Option<Group>, frames: seq<Frame>) {
    && ctx.state.CanRead() && Holds(ctx, group) && Calm(s)
    && At(ctx.codec, s, missing, frames)
    && AllProper(ctx.config, Peer(ctx.role), frames)
    && Follow(ctx.config.MessageLimit(), group, DataFrames(frames))
  }

  /** The frame that comes off the wire, unmasked. */
  lemma ProperPlain(config: Config, reader: Role, f: Frame)
    requires Proper(config, Peer(reader), f)
    ensures Plain(reader, OnTheWire(f)) == f.(header := f.header.(mask := None))
    ensures OnTheWire(f).header == f.header && |OnTheWire(f).payload| == |f.payload|
  {
    hide Masking.Masked;
    UnmaskOnTheWire(f);
    MaskedLength(f);
  }

  lemma JoinUnmasked(group: Option<Group>, f: Frame)
    requires f.header.opcode.Data?
    ensures Join(group, f.(header := f.header.(mask := None))) == Join(group, f)
  {
  }

  /** A proper frame that may follow is taken, and does what it says. */
  lemma ProperHandled(ctx: Context, f: Frame, group: Option<Group>)
    requires ctx.state.CanRead() && Holds(ctx, group) && Proper(ctx.config, Peer(ctx.role), f)
    requires f.header.opcode.Data? ==> MayFollow(ctx.config.MessageLimit(), group, f)
    ensures var h := HandleFrame(ctx, OnTheWire(f));
            && h.ctx.state == ctx.state
            && (if f.header.opcode.Control? then h.result == Ok(Some(ControlMessage(f))) && Holds(h.ctx, group)
                else
                  && Holds(h.ctx, GroupBehind(group, f))
                  && h.result == Ok(if f.header.fin then Some(Join(group, f).value.AsMessage()) else None))
  {
    hide HandleData, HandleControl, OnTheWire, Plain, Holds, MayStand, Fits;
    ProperPlain(ctx.config, ctx.role, f);
    var p := Plain(ctx.role, OnTheWire(f));
    if f.header.opcode.Control? {
      ProperOpens(ctx, f);
      ControlSays(ctx, p, group);
    } else {
      JoinUnmasked(group, f);
      ProperOpens(ctx, f);
      DataFrameTakenIff(ctx, p, group);
      HandleDataAssembles(ctx, p, group);
      HandleDataEnding(ctx, p);
    }
  }

  lemma ProperOpens(ctx: Context, f: Frame)
    requires ctx.state.CanRead() && Proper(ctx.config, Peer(ctx.role), f)
    ensures var p := Plain(ctx.role, OnTheWire(f));
            && p.header.opcode == f.header.opcode
            && HandleFrame(ctx, OnTheWire(f))
               == if f.header.opcode.Control? then HandleControl(ctx, p) else HandleData(ctx, p)
  {
    hide HandleData, HandleControl, OnTheWire, Fits, Masking.Masked;
    ProperPlain(ctx.config, ctx.role, f);
  }

  lemma ControlSays(ctx: Context, f: Frame, group: Option<Group>)
    requires ctx.state.CanRead() && Holds(ctx, group)
    requires f.header.opcode in {PING, PONG} && f.header.fin && |f.payload| <= 125
    ensures var h := HandleControl(ctx, f);
            && h.result == Ok(Some(ControlMessage(f))) && h.ctx.state == ctx.state && Holds(h.ctx, group)
  {
    hide Collected;
  }

  function Given(r: Result<Option<Message>>): seq<Message> {
    if r.Ok? && r.value.Some? then [r.value.value] else []
  }

  lemma DataFramesUnfold(frames: seq<Frame>)
    requires frames != []
    ensures DataFrames(frames)
         == (if frames[0].header.opcode.Data? then [frames[0]] else []) + DataFrames(frames[1..])
    ensures frames[0].header.opcode.Data? ==>
              DataFrames(frames)[0] == frames[0] && DataFrames(frames)[1..] == DataFrames(frames[1..])
  {
  }

  /** The group open behind any frame of the wire. */
  function After(group: Option<Group>, f: Frame): Option<Group> {
    if f.header.opcode.Data? then GroupBehind(group, f) else group
  }

  /** What stands first may follow; the rest follows it. */
  lemma FirstFollows(limit: nat, group: Option<Group>, frames: seq<Frame>)
    requires frames != [] && Follow(limit, group, DataFrames(frames))
    ensures frames[0].header.opcode.Data? ==> MayFollow(limit, group, frames[0])
    ensures Follow(limit, After(group, frames[0]), DataFrames(frames[1..]))
  {
    hide MayFollow, GroupBehind;
    DataFramesUnfold(frames);
    if frames[0].header.opcode.Control? {
      assert DataFrames(frames) == DataFrames(frames[1..]);
    }
  }

  lemma ToldUnfolds(limit: nat, group: Option<Group>, frames: seq<Frame>, r: Result<Option<Message>>)
    requires frames != []
    requires var f := frames[0];
             if f.header.opcode.Control? then r == Ok(Some(ControlMessage(f)))
             else MayFollow(limit, group, f)
                  && r == Ok(if f.header.fin then Some(Join(group, f).value.AsMessage()) else None)
    ensures Told(group, frames) == Given(r) + Told(After(group, frames[0]), frames[1..])
  {
    hide MayStand;
  }

  /** A frame was taken, and said what the wire says next. */
  ghost predicate Took(ctx: Context, s: Stream, missing: Bytes, group: Option<Group>, frames: seq<Frame>,
                       r: Step<Option<Message>>) {
    && frames != [] && r.result.Ok?
    && Reader(r.ctx, r.stream, missing, After(group, frames[0]), frames[1..])
    && Told(group, frames) == Given(r.result) + Told(After(group, frames[0]), frames[1..])
    && |r.stream.incoming| <= |s.incoming|
  }

  /** Nothing has come; if nothing is to come any more, nothing is left. */
  ghost predicate Waits<T>(ctx: Context, s: Stream, missing: Bytes, group: Option<Group>, frames: seq<Frame>,
                           r: Step<T>) {
    && r.result == Err(Io(WouldBlock)) && Reader(r.ctx, r.stream, missing, group, frames)
    && (|r.stream.incoming| < |s.incoming| || r.stream.incoming == [])
    && (Exhausted(r.stream, missing) ==> frames == [])
  }

  lemma AllProperTail(config: Config, writer: Role, frames: seq<Frame>)
    requires frames != [] && AllProper(config, writer, frames)
    ensures Proper(config, writer, frames[0]) && AllProper(config, writer, frames[1..])
  {
    hide Proper;
  }

  lemma ProperFits(config: Config, writer: Role, frames: seq<Frame>)
    requires AllProper(config, writer, frames)
    ensures frames != [] ==> Fits(frames[0], config.FrameLimit())
  {
    hide Fits;
  }

  lemma SameHolds(ctx: Context, c: Codec, group: Option<Group>)
    requires Holds(ctx, group)
    ensures Holds(ctx.(codec := c), group)
  {
    hide Collected;
  }

  lemma FrameIsTold(ctx: Context, s: Stream, missing: Bytes, group: Option<Group>, frames: seq<Frame>)
    requires Reader(ctx, s, missing, group, frames)
    ensures var r := ReadMessageFrame(ctx, s);
            Took(ctx, s, missing, group, frames, r) || Waits(ctx, s, missing, group, frames, r)
  {
    hide ReadFrame, HandleFrame, At, AllProper, Follow, MayFollow, Holds, Told, DataFrames, OnTheWire, Proper, Fits,
         ControlMessage, GroupBehind, Calm;
    var limit := ctx.config.FrameLimit();
    ProperFits(ctx.config, Peer(ctx.role), frames);
    ReadFrameOnWire(ctx.codec, s, missing, frames, limit);
    var raw := ReadFrame(ctx.codec, s, limit);
    var ctx' := ctx.(codec := raw.codec);
    SameHolds(ctx, raw.codec, group);
    CalmKept(s, raw.stream);
    if raw.result.Ok? {
      AllProperTail(ctx.config, Peer(ctx.role), frames);
      FirstFollows(ctx.config.MessageLimit(), group, frames);
      ProperHandled(ctx', frames[0], group);
      var r := ReadMessageFrame(ctx, s);
      assert r.result == HandleFrame(ctx', OnTheWire(frames[0])).result;
      ToldUnfolds(ctx.config.MessageLimit(), group, frames, r.result);
    }
  }

  lemma CalmKept(s: Stream, s': Stream)
    requires Calm(s) && s' == s.(incoming := s'.incoming)
    ensures Calm(s')
  {
  }

  // ---------------------------------------------------------------- whole reads

  lemma BeforeReadKeeps(ctx: Context, s: Stream, missing: Bytes, group: Option<Group>, frames: seq<Frame>)
    requires Reader(ctx, s, missing, group, frames)
    ensures var b := BeforeRead(ctx, s);
            b.result.Ok? && Reader(b.ctx, b.stream, missing, group, frames) && b.stream.incoming == s.incoming
  {
    hide Flush, Wire, AllProper, Follow, Collected, Calm, Steady, DataFrames;
    BeforeReadCalm(ctx, s);
  }

  /** What one read has done, when it leaves this group open and these frames. */
  ghost predicate ReadOn(s: Stream, missing: Bytes, group: Option<Group>, frames: seq<Frame>, r: Step<Message>,
                         after: Option<Group>, rest: seq<Frame>) {
    && Reader(r.ctx, r.stream, missing, after, rest)
    && Told(group, frames) == Given(ReadResult(r)) + Told(after, rest)
    && |r.stream.incoming| <= |s.incoming|
    && (r.result.Err? ==>
          && r.result == Err(Io(WouldBlock)) && (|r.stream.incoming| < |s.incoming| || r.stream.incoming == [])
          && (Exhausted(r.stream, missing) ==> rest == []))
  }

  lemma {:induction false} ReadLoopIsTold(ctx: Context, s: Stream, missing: Bytes, group: Option<Group>,
                                          frames: seq<Frame>)
    returns (after: Option<Group>, rest: seq<Frame>)
    requires Reader(ctx, s, missing, group, frames)
    ensures ReadOn(s, missing, group, frames, ReadLoop(ctx, s), after, rest)
    decreases Unread(ctx.codec, s)
  {
    hide BeforeRead, ReadMessageFrame, Reader, Told, Exhausted, After;
    BeforeReadKeeps(ctx, s, missing, group, frames);
    var b := BeforeRead(ctx, s);
    FrameIsTold(b.ctx, b.stream, missing, group, frames);
    var r := ReadMessageFrame(b.ctx, b.stream);
    after, rest := group, frames;
    if r.result.Ok? {
      after, rest := After(group, frames[0]), frames[1..];
      if r.result == Ok(None) {
        ReadProgress(ctx, s);
        ghost var a, q := ReadLoopIsTold(r.ctx, r.stream, missing, after, rest);
        assert [] + Told(after, rest) == Told(after, rest);
        after, rest := a, q;
      }
    } else {
      assert Told(group, frames) == [] + Told(group, frames);
    }
  }

  function Returned(results: seq<Result<Option<Message>>>): seq<Message> {
    if results == [] then [] else Given(results[0]) + Returned(results[1..])
  }

  /** What reads have returned of what is told: the first of it, and all if `all`. */
  predicate Heard(got: seq<Result<Option<Message>>>, told: seq<Message>, all: bool) {
    AllSmooth(got) && Returned(got) <= told && (all ==> Returned(got) == told)
  }

  lemma HeardNext(r: Result<Option<Message>>, got: seq<Result<Option<Message>>>, told: seq<Message>, all: bool)
    requires Heard(got, told, all) && Smooth(r)
    ensures Heard([r] + got, Given(r) + told, all)
  {
    var more := [r] + got;
    assert more[0] == r && more[1..] == got;
  }

  lemma HeardNothing(ctx: Context, s: Stream, told: seq<Message>, all: bool)
    requires all ==> told == []
    ensures Heard(Play(ctx, s, Reads(0)).results, told, all)
  {
    assert Reads(0) == [];
  }

  lemma HeardLess(got: seq<Result<Option<Message>>>, told: seq<Message>, all: bool, less: bool)
    requires Heard(got, told, all) && (less ==> all)
    ensures Heard(got, told, less)
  {
  }

  /** Any number of reads returns what the wire says, in order and without an error; enough reads all of it. */
  lemma {:induction false} ReadsAreTold(ctx: Context, s: Stream, missing: Bytes, group: Option<Group>,
                                        frames: seq<Frame>, n: nat)
    requires Reader(ctx, s, missing, group, frames)
    ensures var told := Told(group, frames);
            Heard(Play(ctx, s, Reads(n)).results, told, missing == [] && n >= |told| + |s.incoming|)
    decreases n
  {
    hide Play, Reader, Told, Heard, ReadLoop;
    var told := Told(group, frames);
    var all := missing == [] && n >= |told| + |s.incoming|;
    if n == 0 {
      HeardNothing(ctx, s, told, all);
    } else {
      PlayOneRead(ctx, s, n);
      ghost var after, rest := ReadLoopIsTold(ctx, s, missing, group, frames);
      var r := Read(ctx, s);
      assert r == ReadLoop(ctx, s) by { CanReadIsNotOver(ctx, s, missing, group, frames); }
      ReadsAreTold(r.ctx, r.stream, missing, after, rest, n - 1);
      var got := Play(r.ctx, r.stream, Reads(n - 1)).results;
      EnoughReads(s, missing, group, frames, r, after, rest, n);
      HeardLess(got, Told(after, rest), missing == [] && n - 1 >= |Told(after, rest)| + |r.stream.incoming|, all);
      HeardNext(ReadResult(r), got, Told(after, rest), all);
    }
  }

  lemma CanReadIsNotOver(ctx: Context, s: Stream, missing: Bytes, group: Option<Group>, frames: seq<Frame>)
    requires Reader(ctx, s, missing, group, frames)
    ensures Read(ctx, s) == ReadLoop(ctx, s)
  {
    hide ReadLoop, Holds, At, AllProper, Follow, Calm;
  }

  lemma EnoughReads(s: Stream, missing: Bytes, group: Option<Group>, frames: seq<Frame>, r: Step<Message>,
                    after: Option<Group>, rest: seq<Frame>, n: nat)
    requires n > 0 && ReadOn(s, missing, group, frames, r, after, rest)
    ensures missing == [] && n >= |Told(group, frames)| + |s.incoming| ==>
              n - 1 >= |Told(after, rest)| + |r.stream.incoming|
  {
    hide Reader;
    if missing == [] && r.stream.incoming == [] {
      assert Exhausted(r.stream, missing);
    }
  }

  // ---------------------------------------------------------------- by groups

  /** The payloads of some frames as their writer made them. */
  function Written(frames: seq<Frame>): Bytes {
    if frames == [] then [] else frames[0].payload + Written(frames[1..])
  }

  function GroupOf(frames: seq<Frame>): Group
    requires frames != []
  {
    Group(frames[0].Is(Data(DataOp.Text)), Written(frames))
  }

  /** The message of a finished group is within the limit, and is text if it says so. */
  ghost predicate GroupStands(limit: nat, frames: seq<Frame>) {
    IsGroup(frames) && MayStand(limit, GroupOf(frames), true)
  }

  /** An unfinished one is within the limit, and may become text if it says so. */
  ghost predicate OpenStands(limit: nat, frames: seq<Frame>) {
    IsOpenGroup(frames) && (frames != [] ==> MayStand(limit, GroupOf(frames), false))
  }

  function Finished(groups: seq<seq<Frame>>): seq<Message>
    requires forall g | g in groups :: IsGroup(g)
  {
    if groups == [] then []
    else
      assert groups[0] in groups;
      assert IsGroup(groups[0]) && groups[0] != [];
      [GroupOf(groups[0]).AsMessage()] + Finished(groups[1..])
  }

  /** Whatever could stand with more behind it, may stand. */
  lemma MoreMayStand(limit: nat, g: Group, more: Bytes, fin: bool)
    requires MayStand(limit, g.(total := g.total + more), fin)
    ensures MayStand(limit, g, false)
  {
    hide WellFormed;
    if g.text {
      if fin {
        assert WellFormed(g.total + more);
      } else {
        var rest: Bytes :| WellFormed(g.total + more + rest);
        assert g.total + more + rest == g.total + (more + rest);
        assert WellFormed(g.total + (more + rest));
      }
    }
  }

  /** Continuations, of which the last is final or none is. */
  predicate Continuations(frames: seq<Frame>, finished: bool) {
    && (finished ==> frames != [])
    && (forall i | 0 <= i < |frames| :: frames[i].header.opcode == Data(Continue))
    && (forall i | 0 <= i < |frames| :: frames[i].header.fin <==> finished && i == |frames| - 1)
  }

  lemma ContinuationsTail(frames: seq<Frame>, finished: bool)
    requires Continuations(frames, finished) && frames != []
    ensures frames[0].header.opcode == Data(Continue)
    ensures frames[0].header.fin <==> finished && frames[1..] == []
    ensures !frames[0].header.fin ==> Continuations(frames[1..], finished)
    ensures frames[0].header.fin ==> frames == [frames[0]]
  {
  }

  lemma WrittenOn(total: Bytes, frames: seq<Frame>)
    requires frames != []
    ensures total + Written(frames) == total + frames[0].payload + Written(frames[1..])
  {
  }

  lemma NothingWritten(g: Group, frames: seq<Frame>)
    requires frames == []
    ensures g.(total := g.total + Written(frames)) == g
  {
  }

  lemma {:induction false} ContinuationsFollow(limit: nat, g: Group, frames: seq<Frame>, finished: bool,
                                               more: seq<Frame>)
    requires Continuations(frames, finished) && (!finished ==> more == [])
    requires MayStand(limit, g.(total := g.total + Written(frames)), finished)
    requires Follow(limit, None, more)
    ensures Follow(limit, Some(g), frames + more)
    decreases frames
  {
    hide MayStand, Continuations, Written;
    if frames != [] {
      var f, rest := frames[0], frames[1..];
      var g' := g.(total := g.total + f.payload);
      assert (frames + more)[0] == f && (frames + more)[1..] == rest + more;
      ContinuationsTail(frames, finished);
      WrittenOn(g.total, frames);
      assert Join(Some(g), f) == Some(g');
      if f.header.fin {
        assert rest + more == more;
        NothingWritten(g', rest);
      } else {
        MoreMayStand(limit, g', Written(rest), finished);
        ContinuationsFollow(limit, g', rest, finished, more);
      }
    } else {
      assert !finished by { NoneIsUnfinished(frames, finished); }
      assert frames + more == [];
    }
  }

  lemma NoneIsUnfinished(frames: seq<Frame>, finished: bool)
    requires Continuations(frames, finished) && frames == []
    ensures !finished
  {
  }

  lemma FirstOpens(frames: seq<Frame>, finished: bool)
    requires frames != [] && (if finished then IsGroup(frames) else IsOpenGroup(frames))
    ensures frames[0].header.opcode in {Data(DataOp.Text), Data(DataOp.Binary)}
    ensures Join(None, frames[0]) == Some(Group(frames[0].Is(Data(DataOp.Text)), frames[0].payload))
    ensures frames[0].header.fin <==> finished && frames[1..] == []
    ensures !frames[0].header.fin ==> Continuations(frames[1..], finished)
    ensures frames[0].header.fin ==> frames == [frames[0]]
  {
  }

  /** One group, finished or not, then what may follow it. */
  lemma GroupFollows(limit: nat, frames: seq<Frame>, finished: bool, more: seq<Frame>)
    requires if finished then GroupStands(limit, frames) else OpenStands(limit, frames) && more == []
    requires Follow(limit, None, more)
    ensures Follow(limit, None, frames + more)
  {
    hide MayStand, Continuations, Written, IsGroup, IsOpenGroup;
    if frames == [] {
      assert frames + more == more;
    } else {
      var f, rest := frames[0], frames[1..];
      FirstOpens(frames, finished);
      var g := Group(f.Is(Data(DataOp.Text)), f.payload);
      assert (frames + more)[0] == f && (frames + more)[1..] == rest + more;
      WrittenOn([], frames);
      assert GroupOf(frames) == g.(total := g.total + Written(rest)) by { GroupIsGrown(frames); }
      if f.header.fin {
        assert rest + more == more;
        NothingWritten(g, rest);
      } else {
        MoreMayStand(limit, g, Written(rest), finished);
        ContinuationsFollow(limit, g, rest, finished, more);
      }
    }
  }

  lemma GroupIsGrown(frames: seq<Frame>)
    requires frames != []
    ensures var g := Group(frames[0].Is(Data(DataOp.Text)), frames[0].payload);
            GroupOf(frames) == g.(total := g.total + Written(frames[1..]))
  {
  }

  lemma {:induction false} GroupsFollow(limit: nat, groups: seq<seq<Frame>>, open: seq<Frame>)
    requires (forall g | g in groups :: GroupStands(limit, g)) && OpenStands(limit, open)
    ensures Follow(limit, None, Concat(groups) + open)
  {
    hide GroupStands, OpenStands, Follow;
    if groups == [] {
      assert Concat(groups) + open == open == open + [];
      assert Follow(limit, None, []) by { NothingFollows(limit); }
      GroupFollows(limit, open, false, []);
    } else {
      assert groups[0] in groups;
      var more := Concat(groups[1..]) + open;
      assert Concat(groups) + open == groups[0] + more;
      GroupsFollow(limit, groups[1..], open);
      GroupFollows(limit, groups[0], true, more);
    }
  }

  lemma NothingFollows(limit: nat)
    ensures Follow(limit, None, [])
  {
  }

  // ---- the data of what is told

  function DataPart(messages: seq<Message>): seq<Message> {
    if messages == [] then []
    else (if IsData(messages[0]) then [messages[0]] else []) + DataPart(messages[1..])
  }

  lemma {:induction false} DataPartAppend(a: seq<Message>, b: seq<Message>)
    ensures DataPart(a + b) == DataPart(a) + DataPart(b)
  {
    hide IsData;
    if a == [] {
      assert a + b == b;
    } else {
      var ab, first := a + b, if IsData(a[0]) then [a[0]] else [];
      assert ab[0] == a[0] && ab[1..] == a[1..] + b;
      DataPartAppend(a[1..], b);
      assert DataPart(ab) == first + (DataPart(a[1..]) + DataPart(b)) == DataPart(a) + DataPart(b);
    }
  }

  lemma DataPartOne(m: Message)
    ensures DataPart([m]) == if IsData(m) then [m] else []
  {
    assert [m][1..] == [];
  }

  /** The data told is what the frames assemble to; a client reads payloads as they stand. */
  lemma {:induction false} DataTold(limit: nat, group: Option<Group>, frames: seq<Frame>)
    requires Follow(limit, group, DataFrames(frames))
    ensures DataPart(Told(group, frames)) == Assemble(Client, group, frames)
    decreases frames
  {
    hide Follow, DataPart, MayStand, DataFrames;
    if frames == [] {
      assert DataPart([]) == [] by { NoData(); }
    } else {
      var f, rest := frames[0], frames[1..];
      FirstFollows(limit, group, frames);
      DataTold(limit, After(group, f), rest);
      var first := if f.header.opcode.Control? then [ControlMessage(f)]
                   else if f.header.fin then [Join(group, f).value.AsMessage()] else [];
      assert Told(group, frames) == first + Told(After(group, f), rest);
      DataPartAppend(first, Told(After(group, f), rest));
      if first == [] {
        NoData();
      } else {
        DataPartOne(first[0]);
      }
    }
  }

  lemma NoData()
    ensures DataPart([]) == []
  {
  }

  lemma {:induction false} WrittenIsPayloads(frames: seq<Frame>)
    ensures Payloads(Client, frames) == Written(frames)
  {
    if frames != [] {
      WrittenIsPayloads(frames[1..]);
    }
  }

  lemma {:induction false} FinishedIsGroupMessages(groups: seq<seq<Frame>>)
    requires forall g | g in groups :: IsGroup(g)
    ensures GroupMessages(Client, groups) == Finished(groups)
  {
    hide IsGroup;
    if groups != [] {
      assert groups[0] in groups;
      assert groups[0] != [] by { GroupHasFrames(groups[0]); }
      WrittenIsPayloads(groups[0]);
      FinishedIsGroupMessages(groups[1..]);
    }
  }

  lemma GroupHasFrames(frames: seq<Frame>)
    requires IsGroup(frames)
    ensures frames != []
  {
  }

  lemma {:induction false} ReturnedData(results: seq<Result<Option<Message>>>)
    ensures AllData(results) == DataPart(Returned(results))
  {
    hide DataPart;
    if results == [] {
      NoData();
    } else {
      ReturnedData(results[1..]);
      DataPartAppend(Given(results[0]), Returned(results[1..]));
      if Given(results[0]) == [] {
        NoData();
      } else {
        DataPartOne(Given(results[0])[0]);
      }
    }
  }

  lemma DataPartOfPrefix(a: seq<Message>, b: seq<Message>)
    requires a <= b
    ensures DataPart(a) <= DataPart(b)
  {
    hide DataPart;
    assert b == a + b[|a|..];
    DataPartAppend(a, b[|a|..]);
  }

  /**
   A wire holds the fragments of any messages, each within the limit and each text well formed, in any
   fragmentation, with Pings and Pongs between any two frames and perhaps an unfinished message at the end;
   its bytes arrive in any cut.  Reading never fails: any number of reads returns, in order, the first of the
   messages, each whole, and the control messages where they stand; and enough reads return them all.
   */
  lemma FragmentsAreRead(ctx: Context, s: Stream, missing: Bytes, frames: seq<Frame>, groups: seq<seq<Frame>>,
                         open: seq<Frame>, n: nat)
    requires ctx.state.CanRead() && ctx.incomplete.None? && Calm(s)
    requires At(ctx.codec, s, missing, frames) && AllProper(ctx.config, Peer(ctx.role), frames)
    requires DataFrames(frames) == Concat(groups) + open
    requires forall g | g in groups :: IsGroup(g) && GroupStands(ctx.config.MessageLimit(), g)
    requires OpenStands(ctx.config.MessageLimit(), open)
    ensures var got, told := Play(ctx, s, Reads(n)).results, Told(None, frames);
            && AllSmooth(got) && Returned(got) <= told && AllData(got) <= Finished(groups)
            && (missing == [] && n >= |told| + |s.incoming| ==>
                  Returned(got) == told && AllData(got) == Finished(groups))
  {
    hide Play, Told, AllSmooth, Returned, AllData, At, AllProper, IsGroup, GroupStands, Follow, Calm, DataPart,
         DataFrames;
    var limit := ctx.config.MessageLimit();
    GroupsFollow(limit, groups, open);
    ReadsAreTold(ctx, s, missing, None, frames, n);
    var got, told := Play(ctx, s, Reads(n)).results, Told(None, frames);
    DataTold(limit, None, frames);
    AssemblesGroups(Client, frames, groups, open) by { OpenIsOpen(limit, open); }
    FinishedIsGroupMessages(groups);
    ReturnedData(got);
    DataPartOfPrefix(Returned(got), told);
  }

  lemma OpenIsOpen(limit: nat, open: seq<Frame>)
    requires OpenStands(limit, open)
    ensures IsOpenGroup(open)
  {
  }

  // ---------------------------------------------------------------- a control frame, from the wire

  /** A control frame as a writer of this role makes it, a Close without a reason included. */
  predicate ProperControl(config: Config, writer: Role, f: Frame) {
    && f.header == Header(true, false, false, false, f.header.opcode, f.header.mask)
    && (f.header.mask.Some? <==> writer.Client?)
    && |f.payload| <= 125 && |f.payload| <= config.FrameLimit()
    && (f.header.opcode in {PING, PONG} || (f.header.opcode == CLOSE && f.payload == []))
  }

  /** The message a control frame becomes, the state it leaves, and the reply it brings. */
  function ControlRead(f: Frame): Message {
    match f.header.opcode
    case Control(Ping) => Message.Ping(f.payload)
    case Control(Close) => Message.Close(None)
    case _ => Message.Pong(f.payload)
  }

  function StateAfter(state: State, f: Frame): State {
    if !f.Is(CLOSE) then state else if state.Active? then ClosedByPeer else CloseAcknowledged
  }

  /** A Ping of an active connection brings a Pong with its payload; nothing else brings a reply. */
  predicate BringsReply(state: State, before: Option<Frame>, f: Frame, after: Option<Frame>) {
    if f.Is(PING) && state.Active? then
      && after.Some? && after.value == Frame(Header(true, false, false, false, PONG, None), f.payload)
    else after == before
  }

  /** No reply is pending, or a Pong, which a new reply may replace. */
  predicate Replaceable(additional: Option<Frame>) {
    additional.Some? ==> additional.value.Is(PONG)
  }

  lemma ControlHandled(ctx: Context, f: Frame)
    requires ctx.state.CanRead() && ProperControl(ctx.config, Peer(ctx.role), f)
    ensures var h := HandleFrame(ctx, OnTheWire(f));
            && h.result == Ok(Some(ControlRead(f))) && h.ctx.state == StateAfter(ctx.state, f)
            && h.ctx.codec == ctx.codec
            && (Replaceable(ctx.additional) ==> BringsReply(ctx.state, ctx.additional, f, h.ctx.additional))
    ensures Fits(f, ctx.config.FrameLimit())
  {
    hide Masking.Masked;
    UnmaskOnTheWire(f);
  }

  lemma BeforeControl(ctx: Context, s: Stream)
    requires ctx.state.CanRead()
    ensures var b := BeforeRead(ctx, s);
            && b.ctx.state == ctx.state
            && (b.result.Err? ==> b.result.error.Io? && b.result != Err(Io(WouldBlock)))
            && (Replaceable(ctx.additional) ==> Replaceable(b.ctx.additional))
            && (ctx.additional.None? ==> b == Step(ctx, s, Ok(())))
  {
    hide Flush;
    FlushEnding(ctx, s);
    FlushLeavesReply(ctx, s);
  }

  lemma FlushLeavesReply(ctx: Context, s: Stream)
    requires ctx.state.CanRead()
    ensures var f := Flush(ctx, s);
            && (f.result.Err? ==> f.result.error.Io?)
            && (f.ctx.additional.Some? ==> ctx.additional.Some?)
            && (Replaceable(ctx.additional) ==> Replaceable(f.ctx.additional))
  {
    hide WriteOut;
    if ctx.additional.Some? {
      BufferReply(ctx.(additional := None), s, ctx.additional.value);
    }
    hide Buffer;
  }

  lemma BufferReply(ctx: Context, s: Stream, f: Frame)
    requires ctx.state.CanRead()
    ensures var b := Buffer(ctx, s, f);
            && b.ctx.additional == ctx.additional && b.ctx.state == ctx.state
            && (b.result.Err? ==> b.result.error.Io? || b.result.error.WriteBufferFull?)
            && (Full(b.result) ==> b.result.error.frame.header.opcode == f.header.opcode)
  {
    hide FormatFrame, WriteOut;
  }

  /**
   One read, when the next frame is a Ping, a Pong or a Close without a reason: nothing yet, or that message
   with exactly its payload; the Close closes the connection, only a Ping of an active one brings a reply, a
   Pong with the same payload, and nothing is sent for a Close without a reason.
   */
  lemma ControlIsRead(ctx: Context, s: Stream, missing: Bytes, frames: seq<Frame>)
    requires ctx.state.CanRead() && Replaceable(ctx.additional)
    requires At(ctx.codec, s, missing, frames) && frames != []
    requires ProperControl(ctx.config, Peer(ctx.role), frames[0])
    ensures var r, f := Read(ctx, s), frames[0];
            || (r.result.Err? && r.result.error.Io? && At(r.ctx.codec, r.stream, missing, frames))
            || (&& r.result == Ok(ControlRead(f)) && At(r.ctx.codec, r.stream, missing, frames[1..])
                && r.ctx.state == StateAfter(ctx.state, f)
                && (f.Is(PING) && ctx.state.Active? ==>
                      r.ctx.additional == Some(Frame(Header(true, false, false, false, PONG, None), f.payload)))
                && (ctx.additional.None? ==>
                      && BringsReply(ctx.state, None, f, r.ctx.additional)
                      && r.ctx.codec.sent == ctx.codec.sent && r.stream.accepted == s.accepted))
  {
    hide BeforeRead, ReadFrame, HandleFrame, At, Fits, OnTheWire, ProperControl;
    BeforeControl(ctx, s);
    BeforeReadSide(ctx, s, missing, frames);
    var b := BeforeRead(ctx, s);
    if b.result.Ok? {
      ControlHandled(b.ctx, frames[0]);
      ReadFrameOnWire(b.ctx.codec, b.stream, missing, frames, ctx.config.FrameLimit());
      var raw := ReadFrame(b.ctx.codec, b.stream, ctx.config.FrameLimit());
      if raw.result.Ok? {
        ControlHandled(b.ctx.(codec := raw.codec), frames[0]);
      }
    }
  }

  lemma BeforeReadSide(ctx: Context, s: Stream, missing: Bytes, frames: seq<Frame>)
    requires At(ctx.codec, s, missing, frames)
    ensures var b := BeforeRead(ctx, s);
            At(b.ctx.codec, b.stream, missing, frames) && b.ctx.config == ctx.config && b.ctx.role == ctx.role
  {
    hide Flush, Wire, Steady;
  }
}
