/**
 Whole sessions of a WebSocket connection: any sequence of calls against any stream.
 */
module Sessions {
  import opened Base
  import opened Frames
  import opened Streams
  import opened Codecs
  import opened Messages
  import opened Contexts

  datatype Call = ReadCall | WriteCall(message: Message) | FlushCall | CloseCall(reason: Option<CloseReason>)

  datatype Outcome = Outcome(ctx: Context, stream: Stream, result: Result<Option<Message>>)

  function Done<T>(r: Step<T>): Outcome {
    Outcome(r.ctx, r.stream, if r.result.Err? then Err(r.result.error) else Ok(None))
  }

  function Perform(ctx: Context, s: Stream, call: Call): Outcome {
    match call
    case ReadCall =>
      var r := Read(ctx, s);
      Outcome(r.ctx, r.stream, if r.result.Err? then Err(r.result.error) else Ok(Some(r.result.value)))
    case WriteCall(m) => Done(Write(ctx, s, m))
    case FlushCall => Done(Flush(ctx, s))
    case CloseCall(reason) => Done(Shut(ctx, s, reason))
  }

  datatype Session = Session(ctx: Context, stream: Stream, results: seq<Result<Option<Message>>>)

  function Play(ctx: Context, s: Stream, calls: seq<Call>): (r: Session)
    ensures |r.results| == |calls|
    decreases calls
  {
    if calls == [] then Session(ctx, s, [])
    else
      var first := Perform(ctx, s, calls[0]);
      var others := Play(first.ctx, first.stream, calls[1..]);
      Session(others.ctx, others.stream, [first.result] + others.results)
  }

  // ---------------------------------------------------------------- forward only

  lemma {:induction false} StateMovesForward(ctx: Context, s: Stream, calls: seq<Call>)
    ensures Forward(ctx.state, Play(ctx, s, calls).ctx.state)
    decreases calls
  {
    hide ReadLoop, WriteInner, Flush, Shut, WriteFrame, WritePong;
    if calls != [] {
      var first := Perform(ctx, s, calls[0]);
      StateMovesForward(first.ctx, first.stream, calls[1..]);
    }
  }

  /** A session can be watched at any point. */
  lemma {:induction false} PlaySplit(ctx: Context, s: Stream, calls: seq<Call>, i: nat)
    requires i <= |calls|
    ensures var at := Play(ctx, s, calls[..i]);
            var rest := Play(at.ctx, at.stream, calls[i..]);
            Play(ctx, s, calls) == Session(rest.ctx, rest.stream, at.results + rest.results)
    decreases i
  {
    hide Perform;
    if i == 0 {
      assert calls[0..] == calls;
    } else {
      var first := Perform(ctx, s, calls[0]);
      assert calls[..i][1..] == calls[1..][..i - 1] && calls[1..][i - 1..] == calls[i..];
      PlaySplit(first.ctx, first.stream, calls[1..], i - 1);
    }
  }

  predicate Transfers(call: Call) {
    call.ReadCall? || call.WriteCall?
  }

  lemma {:induction false} TerminatedRefuses(ctx: Context, s: Stream, calls: seq<Call>)
    requires ctx.state.Terminated?
    ensures var r := Play(ctx, s, calls);
            && r.ctx.state.Terminated?
            && forall j | 0 <= j < |calls| && Transfers(calls[j]) :: r.results[j] == Err(AlreadyClosed)
    decreases calls
  {
    hide ReadLoop, Flush, Shut, WriteFrame, WritePong;
    if calls != [] {
      var first := Perform(ctx, s, calls[0]);
      TerminatedRefuses(first.ctx, first.stream, calls[1..]);
    }
  }

  /**
   Over any session the state only moves forward; and from the moment it is `Terminated` to the end of the
   session, every read and every write answers `AlreadyClosed`.
   */
  lemma SessionMovesForward(ctx: Context, s: Stream, calls: seq<Call>, i: nat)
    requires i <= |calls|
    ensures var at, end := Play(ctx, s, calls[..i]), Play(ctx, s, calls);
            && Forward(ctx.state, at.ctx.state) && Forward(at.ctx.state, end.ctx.state)
            && (at.ctx.state.Terminated? ==>
                  && end.ctx.state.Terminated?
                  && forall j | i <= j < |calls| && Transfers(calls[j]) :: end.results[j] == Err(AlreadyClosed))
  {
    hide Play, Forward;
    var at := Play(ctx, s, calls[..i]);
    StateMovesForward(ctx, s, calls[..i]);
    StateMovesForward(at.ctx, at.stream, calls[i..]);
    PlaySplit(ctx, s, calls, i);
    if at.ctx.state.Terminated? {
      TerminatedRefuses(at.ctx, at.stream, calls[i..]);
      var rest, end := Play(at.ctx, at.stream, calls[i..]), Play(ctx, s, calls);
      forall j | i <= j < |calls| && Transfers(calls[j]) ensures end.results[j] == Err(AlreadyClosed) {
        assert calls[i..][j - i] == calls[j] && end.results[j] == rest.results[j - i];
      }
    }
  }

  // ---------------------------------------------------------------- conservation of output

  /** Nothing accepted is lost, doubled or reordered, and the buffer respects its limit. */
  ghost predicate Accounts(base: Bytes, ctx: Context, s: Stream) {
    Conserved(base, ctx.codec, s) && |ctx.codec.output| <= ctx.codec.maxOutput
  }

  lemma BufferAccounts(base: Bytes, ctx: Context, s: Stream, f: Frame)
    requires Accounts(base, ctx, s)
    ensures var r := Buffer(ctx, s, f); Accounts(base, r.ctx, r.stream)
  {
    hide BufferFrame, Formats;
    var (f', s') := Prepared(ctx.role, s, f);
    BufferFrameConserves(base, ctx.codec, s', f');
  }

  lemma WriteOutAccounts(base: Bytes, ctx: Context, s: Stream)
    requires Accounts(base, ctx, s)
    ensures var w := WriteOutBuffer(ctx.codec, s); Accounts(base, ctx.(codec := w.codec), w.stream)
  {
    hide WriteOut, Formats;
    WriteOutConserves(ctx.codec.output, s);
  }

  lemma WriteInnerAccounts(base: Bytes, ctx: Context, s: Stream, data: Option<Frame>)
    requires Accounts(base, ctx, s)
    ensures var r := WriteInner(ctx, s, data); Accounts(base, r.ctx, r.stream)
  {
    hide Buffer, WriteOutBuffer, Conserved;
    var b := if data.Some? then Buffer(ctx, s, data.value) else Step(ctx, s, Ok(()));
    if data.Some? {
      BufferAccounts(base, ctx, s, data.value);
    }
    if b.result.Ok? {
      if b.ctx.additional.Some? {
        BufferAccounts(base, b.ctx.(additional := None), b.stream, b.ctx.additional.value);
      }
      var a := SendAdditional(b.ctx, b.stream);
      WriteOutAccounts(base, a.ctx, a.stream);
    }
  }

  lemma FlushAccounts(base: Bytes, ctx: Context, s: Stream)
    requires Accounts(base, ctx, s)
    ensures var r := Flush(ctx, s); Accounts(base, r.ctx, r.stream)
  {
    hide WriteInner, WriteOutBuffer;
    WriteInnerAccounts(base, ctx, s, None);
    var w := WriteInner(ctx, s, None);
    WriteOutAccounts(base, w.ctx, w.stream);
  }

  lemma WriteAccounts(base: Bytes, ctx: Context, s: Stream, message: Message)
    requires Accounts(base, ctx, s)
    ensures var r := Write(ctx, s, message); Accounts(base, r.ctx, r.stream)
  {
    hide WriteInner, Flush, Shut, Conserved;
    forall f ensures var r := WriteFrame(ctx, s, f); Accounts(base, r.ctx, r.stream) {
      WriteInnerAccounts(base, ctx, s, Some(f));
      var w := WriteInner(ctx, s, Some(f));
      FlushAccounts(base, w.ctx, w.stream);
    }
    if message.Pong? {
      WriteInnerAccounts(base, SetAdditional(ctx, PongFrame(message.data)), s, None);
    } else if message.Close? {
      ShutAccounts(base, ctx, s, message.reason);
    }
  }

  lemma ShutAccounts(base: Bytes, ctx: Context, s: Stream, reason: Option<CloseReason>)
    requires Accounts(base, ctx, s)
    ensures var r := Shut(ctx, s, reason); Accounts(base, r.ctx, r.stream)
  {
    hide WriteInner, Flush, Conserved;
    var ctx' := ctx.(state := ClosedByUs);
    WriteInnerAccounts(base, ctx', s, CloseFrame(reason));
    var w := WriteInner(ctx', s, CloseFrame(reason));
    FlushAccounts(base, w.ctx, w.stream);
    FlushAccounts(base, ctx, s);
  }

  lemma {:induction false} ReadLoopAccounts(base: Bytes, ctx: Context, s: Stream)
    requires Accounts(base, ctx, s)
    ensures var r := ReadLoop(ctx, s); Accounts(base, r.ctx, r.stream)
    decreases Unread(ctx.codec, s)
  {
    hide Flush, ReadMessageFrame;
    FlushAccounts(base, ctx, s);
    var b := BeforeRead(ctx, s);
    if b.result.Ok? {
      var r := ReadMessageFrame(b.ctx, b.stream);
      ReadProgress(ctx, s);
      if r.result == Ok(None) {
        ReadLoopAccounts(base, r.ctx, r.stream);
      }
    }
  }

  /**
   Over any session, with any partial, blocked or failed writes: the bytes the stream took, followed by the
   bytes still buffered, are the accepted frames' wire forms in order, and the buffer keeps its limit.
   */
  lemma {:induction false} SessionConservesOutput(base: Bytes, ctx: Context, s: Stream, calls: seq<Call>)
    requires Accounts(base, ctx, s)
    ensures var r := Play(ctx, s, calls); Accounts(base, r.ctx, r.stream)
    decreases calls
  {
    hide ReadLoop, Write, Flush, Shut, Accounts;
    if calls != [] {
      match calls[0] {
        case ReadCall => ReadLoopAccounts(base, ctx, s);
        case WriteCall(m) => WriteAccounts(base, ctx, s, m);
        case FlushCall => FlushAccounts(base, ctx, s);
        case CloseCall(reason) => ShutAccounts(base, ctx, s, reason);
      }
      var first := Perform(ctx, s, calls[0]);
      SessionConservesOutput(base, first.ctx, first.stream, calls[1..]);
    }
  }
}
