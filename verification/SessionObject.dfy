/**
 A whole session on the context object: what the theorems about `Sessions.Play` say holds of it.
 */
module SessionObjects {
  import opened Base
  import opened Streams
  import opened Messages
  import opened Contexts
  import opened Sessions
  import opened ContextObjects

  /** One call of the user. */
  method PerformOn(ws: WebSocketContext, stream: Stream, call: Call) returns (s: Stream, r: Result<Option<Message>>)
    modifies ws, ws.frame
    ensures Outcome(ws.View(), s, r) == Perform(old(ws.View()), stream, call)
  {
    hide Read, Write, Flush, Shut;
    match call {
      case ReadCall =>
        var m;
        s, m := ws.Read(stream);
        r := if m.Err? then Err(m.error) else Ok(Some(m.value));
      case WriteCall(message) =>
        var done;
        s, done := ws.Write(stream, message);
        r := if done.Err? then Err(done.error) else Ok(None);
      case FlushCall =>
        var done;
        s, done := ws.Flush(stream);
        r := if done.Err? then Err(done.error) else Ok(None);
      case CloseCall(reason) =>
        var done;
        s, done := ws.Close(stream, reason);
        r := if done.Err? then Err(done.error) else Ok(None);
    }
  }

  method PlayOn(ws: WebSocketContext, stream: Stream, calls: seq<Call>)
    returns (s: Stream, results: seq<Result<Option<Message>>>)
    modifies ws, ws.frame
    ensures Session(ws.View(), s, results) == Play(old(ws.View()), stream, calls)
  {
    hide Perform;
    s, results := stream, [];
    ghost var start := ws.View();
    for i := 0 to |calls|
      invariant Session(ws.View(), s, results) == Play(start, stream, calls[..i])
    {
      ghost var before := Play(start, stream, calls[..i]);
      var r;
      s, r := PerformOn(ws, s, calls[i]);
      OneMoreCall(start, stream, calls, i);
      results := results + [r];
    }
    assert calls[..|calls|] == calls;
  }

  lemma OneMoreCall(ctx: Context, s: Stream, calls: seq<Call>, i: nat)
    requires i < |calls|
    ensures var at := Play(ctx, s, calls[..i]);
            var next := Perform(at.ctx, at.stream, calls[i]);
            Play(ctx, s, calls[..i + 1]) == Session(next.ctx, next.stream, at.results + [next.result])
  {
    hide Perform;
    var some := calls[..i + 1];
    PlaySplit(ctx, s, some, i);
    assert some[..i] == calls[..i] && some[i..] == [calls[i]];
    var at := Play(ctx, s, calls[..i]);
    assert Play(at.ctx, at.stream, [calls[i]]).results == [Perform(at.ctx, at.stream, calls[i]).result] by {
      assert [calls[i]][1..] == [];
    }
  }
}
