/**
 What a reader of a WebSocket connection gets: messages reassembled from fragments (section 5.4 of RFC 6455),
 and, end to end, the messages that the other side wrote.
 */
module Reading {
  import opened Base
  import opened Coding
  import opened Frames
  import opened Streams
  import opened Codecs
  import opened Utf8Text
  import opened Messages
  import opened Contexts
  import opened Sessions

  // ---------------------------------------------------------------- reassembly, as a reading of the frames

  datatype Group = Group(text: bool, total: Bytes) {
    function AsMessage(): Message {
      if text then Message.Text(total) else Message.Binary(total)
    }
  }

  function Plain(role: Role, f: Frame): Frame {
    if role.Server? then ApplyMask(f) else f
  }

  /** A data frame opens a group or continues the open one. */
  function Join(group: Option<Group>, f: Frame): Option<Group>
    requires f.header.opcode.Data?
  {
    match (group, f.header.opcode.data)
    case (Some(g), Continue) => Some(g.(total := g.total + f.payload))
    case (None, Text) => Some(Group(true, f.payload))
    case (None, Binary) => Some(Group(false, f.payload))
    case _ => None
  }

  function Assemble(role: Role, group: Option<Group>, frames: seq<Frame>): seq<Message>
    decreases frames
  {
    if frames == [] then []
    else
      var f := Plain(role, frames[0]);
      if f.header.opcode.Control? then Assemble(role, group, frames[1..])
      else
        match Join(group, f)
        case None => []
        case Some(g) =>
          if f.header.fin then [g.AsMessage()] + Assemble(role, None, frames[1..])
          else Assemble(role, Some(g), frames[1..])
  }

  // ---- the same, by groups

  function DataFrames(frames: seq<Frame>): seq<Frame> {
    if frames == [] then []
    else (if frames[0].header.opcode.Data? then [frames[0]] else []) + DataFrames(frames[1..])
  }

  /** One unfragmented message or a first fragment, continuations and a final one. */
  predicate IsGroup(frames: seq<Frame>) {
    && frames != []
    && frames[0].header.opcode in {Data(DataOp.Text), Data(DataOp.Binary)}
    && (forall i | 0 < i < |frames| :: frames[i].header.opcode == Data(Continue))
    && (forall i | 0 <= i < |frames| :: frames[i].header.fin <==> i == |frames| - 1)
  }

  function Payloads(role: Role, frames: seq<Frame>): Bytes {
    if frames == [] then [] else Plain(role, frames[0]).payload + Payloads(role, frames[1..])
  }

  function GroupMessages(role: Role, groups: seq<seq<Frame>>): seq<Message>
    requires forall g | g in groups :: IsGroup(g)
  {
    if groups == [] then []
    else
      assert groups[0] in groups;
      assert IsGroup(groups[0]) && groups[0] != [];
      [Group(groups[0][0].header.opcode == Data(DataOp.Text), Payloads(role, groups[0])).AsMessage()]
      + GroupMessages(role, groups[1..])
  }

  lemma PlainHeader(role: Role, f: Frame)
    ensures Plain(role, f).header.opcode == f.header.opcode && Plain(role, f).header.fin == f.header.fin
  {
  }

  lemma {:induction false} ControlsDoNotMatter(role: Role, group: Option<Group>, frames: seq<Frame>)
    ensures Assemble(role, group, frames) == Assemble(role, group, DataFrames(frames))
    decreases frames
  {
    hide Plain;
    if frames != [] {
      var f, rest := frames[0], frames[1..];
      PlainHeader(role, f);
      if f.header.opcode.Data? {
        assert DataFrames(frames)[1..] == DataFrames(rest);
        var g := Join(group, Plain(role, f));
        if g.Some? {
          ControlsDoNotMatter(role, if f.header.fin then None else g, rest);
        }
      } else {
        ControlsDoNotMatter(role, group, rest);
        assert DataFrames(frames) == DataFrames(rest);
      }
    }
  }

  /** The continuations of an open group complete it. */
  lemma {:induction false} ContinuationsAssemble(role: Role, g: Group, frames: seq<Frame>, more: seq<Frame>)
    requires frames != []
    requires forall i | 0 <= i < |frames| :: frames[i].header.opcode == Data(Continue)
    requires forall i | 0 <= i < |frames| :: frames[i].header.fin <==> i == |frames| - 1
    ensures Assemble(role, Some(g), frames + more)
         == [g.(total := g.total + Payloads(role, frames)).AsMessage()] + Assemble(role, None, more)
    decreases frames
  {
    hide Plain;
    var f, rest := frames[0], frames[1..];
    PlainHeader(role, f);
    assert (frames + more)[1..] == rest + more;
    var g' := g.(total := g.total + Plain(role, f).payload);
    if rest == [] {
      assert rest + more == more;
      assert Payloads(role, frames) == Plain(role, f).payload + Payloads(role, rest) == Plain(role, f).payload;
    } else {
      ContinuationsAssemble(role, g', rest, more);
      assert g.total + Payloads(role, frames) == g'.total + Payloads(role, rest);
    }
  }

  lemma GroupAssembles(role: Role, group: seq<Frame>, more: seq<Frame>)
    requires IsGroup(group)
    ensures Assemble(role, None, group + more)
         == [Group(group[0].header.opcode == Data(DataOp.Text), Payloads(role, group)).AsMessage()]
          + Assemble(role, None, more)
  {
    hide Plain;
    var f, rest := group[0], group[1..];
    PlainHeader(role, f);
    assert (group + more)[1..] == rest + more;
    var g := Group(f.header.opcode == Data(DataOp.Text), Plain(role, f).payload);
    if rest == [] {
      assert rest + more == more;
      assert Payloads(role, group) == Plain(role, f).payload + Payloads(role, rest) == g.total;
    } else {
      ContinuationsAssemble(role, g, rest, more);
      assert Payloads(role, group) == g.total + Payloads(role, rest);
    }
  }

  /** The beginning of a group whose end has not come, or nothing. */
  predicate IsOpenGroup(frames: seq<Frame>) {
    && (frames != [] ==> frames[0].header.opcode in {Data(DataOp.Text), Data(DataOp.Binary)})
    && (forall i | 0 < i < |frames| :: frames[i].header.opcode == Data(Continue))
    && (forall i | 0 <= i < |frames| :: !frames[i].header.fin)
  }

  lemma {:induction false} OpenContinuesAssemble(role: Role, g: Group, frames: seq<Frame>)
    requires forall i | 0 <= i < |frames| :: frames[i].header.opcode == Data(Continue) && !frames[i].header.fin
    ensures Assemble(role, Some(g), frames) == []
    decreases frames
  {
    hide Plain;
    if frames != [] {
      PlainHeader(role, frames[0]);
      OpenContinuesAssemble(role, g.(total := g.total + Plain(role, frames[0]).payload), frames[1..]);
    }
  }

  lemma OpenAssembles(role: Role, open: seq<Frame>)
    requires IsOpenGroup(open)
    ensures Assemble(role, None, open) == []
  {
    hide Plain;
    if open != [] {
      var f := open[0];
      PlainHeader(role, f);
      OpenContinuesAssemble(role, Group(f.header.opcode == Data(DataOp.Text), Plain(role, f).payload), open[1..]);
    }
  }

  /**
   Whatever control frames are mixed in, and wherever the stream ends, the messages are one per finished
   group: the concatenated payloads with the type of the first fragment.
   */
  lemma {:induction false} AssemblesGroups(role: Role, frames: seq<Frame>, groups: seq<seq<Frame>>, open: seq<Frame>)
    requires forall g | g in groups :: IsGroup(g)
    requires IsOpenGroup(open) && DataFrames(frames) == Concat(groups) + open
    ensures Assemble(role, None, frames) == GroupMessages(role, groups)
  {
    ControlsDoNotMatter(role, None, frames);
    PureGroupsAssemble(role, groups, open);
  }

  lemma {:induction false} PureGroupsAssemble(role: Role, groups: seq<seq<Frame>>, open: seq<Frame>)
    requires (forall g | g in groups :: IsGroup(g)) && IsOpenGroup(open)
    ensures Assemble(role, None, Concat(groups) + open) == GroupMessages(role, groups)
  {
    hide IsGroup, IsOpenGroup;
    if groups == [] {
      assert Concat(groups) + open == open;
      OpenAssembles(role, open);
    } else {
      assert groups[0] in groups;
      assert Concat(groups) + open == groups[0] + (Concat(groups[1..]) + open);
      GroupAssembles(role, groups[0], Concat(groups[1..]) + open);
      PureGroupsAssemble(role, groups[1..], open);
    }
  }

  // ---------------------------------------------------------------- the context reassembles

  /** The context holds exactly the open group. */
  predicate Holds(ctx: Context, group: Option<Group>) {
    match group
    case None => ctx.incomplete.None?
    case Some(g) => ctx.incomplete.Some? && Collected(ctx.incomplete.value, g.text, g.total)
  }

  function DataOf(r: Result<Option<Message>>): seq<Message> {
    if r.Ok? && r.value.Some? && (r.value.value.Text? || r.value.value.Binary?) then [r.value.value] else []
  }

  predicate WithinLimit(limit: nat, messages: seq<Message>) {
    forall m | m in messages :: (m.Text? || m.Binary?) && |m.data| <= limit && (m.Text? ==> WellFormed(m.data))
  }

  lemma EmptyCollects(text: bool)
    ensures Collected(if text then IncompleteText(EMPTY_COLLECTOR) else IncompleteBinary([]), text, [])
  {
    assert CollectorOf([]) == Some(EMPTY_COLLECTOR);
  }

  lemma HandleDataAssembles(ctx: Context, f: Frame, group: Option<Group>)
    requires f.header.opcode.Data? && Holds(ctx, group)
    ensures var h := HandleData(ctx, f);
            h.result.Ok? ==>
              && Join(group, f).Some?
              && (f.header.fin ==> h.result == Ok(Some(Join(group, f).value.AsMessage())) && Holds(h.ctx, None))
              && (!f.header.fin ==> h.result == Ok(None) && Holds(h.ctx, Join(group, f)))
              && WithinLimit(ctx.config.MessageLimit(), DataOf(h.result))
  {
    hide ExtendMessage, CompleteMessage, Collected, WellFormed;
    var op, limit := f.header.opcode.data, ctx.config.MessageLimit();
    if op.Continue? {
      if group.Some? {
        var g := group.value;
        MessageCollects(ctx.incomplete.value, g.text, g.total, f.payload, limit);
        var grown := ExtendMessage(ctx.incomplete.value, f.payload, limit);
        if grown.result.Ok? {
          MessageCollects(grown.message, g.text, g.total + f.payload, [], limit);
        }
      }
    } else if group.None? && !op.ReservedData? {
      var start := if op.Text? then IncompleteText(EMPTY_COLLECTOR) else IncompleteBinary([]);
      EmptyCollects(op.Text?);
      MessageCollects(start, op.Text?, [], f.payload, limit);
      assert [] + f.payload == f.payload;
      var grown := ExtendMessage(start, f.payload, limit);
      if grown.result.Ok? {
        MessageCollects(grown.message, op.Text?, f.payload, [], limit);
      }
    }
  }

  /** The group open after one more frame. */
  function NextGroup(role: Role, group: Option<Group>, f: Frame): Option<Group> {
    var p := Plain(role, f);
    if p.header.opcode.Control? then group
    else if p.header.fin then None
    else Join(group, p)
  }

  /** One accepted frame does to the context what it does to the reading of the stream. */
  lemma HandleFrameAssembles(ctx: Context, f: Frame, group: Option<Group>, rest: seq<Frame>)
    requires Holds(ctx, group)
    ensures var h := HandleFrame(ctx, f);
            h.result.Ok? ==>
              && Holds(h.ctx, NextGroup(ctx.role, group, f))
              && Assemble(ctx.role, group, [f] + rest)
                 == DataOf(h.result) + Assemble(ctx.role, NextGroup(ctx.role, group, f), rest)
              && WithinLimit(ctx.config.MessageLimit(), DataOf(h.result))
  {
    hide HandleData, HandleControl, Holds, WithinLimit;
    assert ([f] + rest)[1..] == rest;
    var p := Plain(ctx.role, f);
    var h := HandleFrame(ctx, f);
    if h.result.Ok? {
      if p.header.opcode.Control? {
        HandleControlKeeps(ctx, p, group);
      } else {
        HandleDataAssembles(ctx, p, group);
      }
    }
  }

  lemma HandleControlKeeps(ctx: Context, f: Frame, group: Option<Group>)
    requires f.header.opcode.Control? && ctx.state.CanRead() && Holds(ctx, group)
    ensures Holds(HandleControl(ctx, f).ctx, group)
    ensures DataOf(HandleControl(ctx, f).result) == [] && WithinLimit(ctx.config.MessageLimit(), [])
  {
    hide ReadClose, Collected;
  }

  function ReadResult(r: Step<Message>): Result<Option<Message>> {
    if r.result.Err? then Err(r.result.error) else Ok(Some(r.result.value))
  }

  /** Reading went well or would block. */
  predicate Smooth(r: Result<Option<Message>>) {
    r.Ok? || r.error == Io(WouldBlock)
  }

  function Todo(ctx: Context, s: Stream, group: Option<Group>): seq<Message> {
    Assemble(ctx.role, group, Pending(ctx.codec, s, ctx.config.FrameLimit()))
  }

  /** One read call delivers the next message of the stream, or leaves all of them to be delivered. */
  lemma {:induction false} ReadLoopAssembles(ctx: Context, s: Stream, group: Option<Group>)
    returns (after: Option<Group>)
    requires Holds(ctx, group)
    ensures var r := ReadLoop(ctx, s);
            Smooth(ReadResult(r)) ==>
              && Holds(r.ctx, after)
              && Todo(ctx, s, group) == DataOf(ReadResult(r)) + Todo(r.ctx, r.stream, after)
              && WithinLimit(ctx.config.MessageLimit(), DataOf(ReadResult(r)))
    decreases Unread(ctx.codec, s)
  {
    hide Flush, ReadFrame, HandleFrame, Assemble, FramesOf, Collected, WithinLimit;
    var b := BeforeRead(ctx, s);
    after := group;
    if b.result.Ok? {
      assert Todo(b.ctx, b.stream, group) == Todo(ctx, s, group);
      after := FrameAssembles(b.ctx, b.stream, group);
      var r := ReadMessageFrame(b.ctx, b.stream);
      ReadProgress(ctx, s);
      if r.result == Ok(None) {
        after := ReadLoopAssembles(r.ctx, r.stream, after);
      }
    }
  }

  lemma FrameAssembles(ctx: Context, s: Stream, group: Option<Group>) returns (after: Option<Group>)
    requires Holds(ctx, group)
    ensures var r := ReadMessageFrame(ctx, s);
            Smooth(r.result) ==>
              && Holds(r.ctx, after)
              && Todo(ctx, s, group) == DataOf(r.result) + Todo(r.ctx, r.stream, after)
              && WithinLimit(ctx.config.MessageLimit(), DataOf(r.result))
  {
    hide ReadFrame, HandleFrame, Assemble, Pending, Collected;
    var limit := ctx.config.FrameLimit();
    var raw := ReadFrame(ctx.codec, s, limit);
    ReadFramePending(ctx.codec, s, limit);
    after := group;
    if raw.result.Ok? && raw.result.value.Some? {
      var f, rest := raw.result.value.value, Pending(raw.codec, raw.stream, limit);
      assert Pending(ctx.codec, s, limit) == [f] + rest;
      HandleFrameAssembles(ctx.(codec := raw.codec), f, group, rest);
      after := NextGroup(ctx.role, group, f);
    } else if raw.result == Err(Io(WouldBlock)) {
      assert Pending(ctx.codec, s, limit) == Pending(raw.codec, raw.stream, limit);
    }
  }

  function AllData(results: seq<Result<Option<Message>>>): seq<Message> {
    if results == [] then [] else DataOf(results[0]) + AllData(results[1..])
  }

  /** Every read of the session went well or would block; writes may fail as they like. */
  predicate SmoothReads(calls: seq<Call>, results: seq<Result<Option<Message>>>)
    requires |calls| == |results|
  {
    forall i | 0 <= i < |calls| && calls[i].ReadCall? :: Smooth(results[i])
  }

  /**
   In every session whose reads meet no error, the Text and Binary messages returned, in order, followed by
   those still to be read, are the messages of the incoming frames; each is within the limit and each text
   is well formed.
   */
  lemma {:induction false} SessionAssembles(ctx: Context, s: Stream, calls: seq<Call>, group: Option<Group>)
    returns (after: Option<Group>)
    requires Holds(ctx, group)
    requires SmoothReads(calls, Play(ctx, s, calls).results)
    ensures var r := Play(ctx, s, calls);
            && Holds(r.ctx, after)
            && Todo(ctx, s, group) == AllData(r.results) + Todo(r.ctx, r.stream, after)
            && WithinLimit(ctx.config.MessageLimit(), AllData(r.results))
    decreases calls
  {
    hide Perform, Assemble, Pending, Holds, WithinLimit, SmoothReads;
    after := group;
    if calls == [] {
      NoneWithin(ctx.config.MessageLimit());
    } else {
      var first := Perform(ctx, s, calls[0]);
      var others := Play(first.ctx, first.stream, calls[1..]);
      var results := Play(ctx, s, calls).results;
      assert results[0] == first.result && results[1..] == others.results;
      SmoothSplit(calls, results);
      after := PerformAssembles(ctx, s, calls[0], group);
      after := SessionAssembles(first.ctx, first.stream, calls[1..], after);
      BothWithin(ctx.config.MessageLimit(), DataOf(first.result), AllData(others.results));
    }
  }

  lemma NoneWithin(limit: nat)
    ensures WithinLimit(limit, [])
  {
  }

  lemma BothWithin(limit: nat, a: seq<Message>, b: seq<Message>)
    requires WithinLimit(limit, a) && WithinLimit(limit, b)
    ensures WithinLimit(limit, a + b)
  {
    hide WellFormed;
  }

  lemma SmoothSplit(calls: seq<Call>, results: seq<Result<Option<Message>>>)
    requires calls != [] && |calls| == |results| && SmoothReads(calls, results)
    ensures calls[0].ReadCall? ==> Smooth(results[0])
    ensures SmoothReads(calls[1..], results[1..])
  {
    hide Smooth;
  }

  lemma PerformAssembles(ctx: Context, s: Stream, call: Call, group: Option<Group>) returns (after: Option<Group>)
    requires Holds(ctx, group)
    requires call.ReadCall? ==> Smooth(Perform(ctx, s, call).result)
    ensures var r := Perform(ctx, s, call);
            && Holds(r.ctx, after) && r.ctx.config == ctx.config
            && Todo(ctx, s, group) == DataOf(r.result) + Todo(r.ctx, r.stream, after)
            && WithinLimit(ctx.config.MessageLimit(), DataOf(r.result))
  {
    hide ReadLoop, Write, Flush, Shut, Assemble, FramesOf, Collected;
    after := group;
    if call.ReadCall? {
      after := ReadLoopAssembles(ctx, s, group);
    }
  }
}
