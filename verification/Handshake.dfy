/**
 The WebSocket handshake machine (`src/adapters/ws/handshake/machine.rs`) and the loop that drives it
 (`src/adapters/ws/handshake/mod.rs`).  The HTTP text is opaque: what a buffer parses to and what response
 is made of a request are answers from outside.
 */
module Handshakes {
  import opened Base

  const MAX_BYTES: nat := 65536
  const MAX_PACKETS: nat := 512
  const MIN_PACKET_SIZE: nat := 128
  const MIN_PACKET_CHECK_THRESHOLD: nat := 64

  /** The counters of one reading stage. */
  datatype Check = Check(packets: nat, bytes: nat) {
    function Counted(size: nat): Check {
      Check(packets + 1, bytes + size)
    }

    predicate Tolerable() {
      && bytes <= MAX_BYTES && packets <= MAX_PACKETS
      && (packets > MIN_PACKET_CHECK_THRESHOLD ==> packets * MIN_PACKET_SIZE <= bytes)
    }
  }

  datatype Machine = Reading(buffer: Bytes, check: Check) | Writing(buffer: Bytes)

  const START_READING := Reading([], Check(0, 0))

  datatype WriteAnswer = Wrote(size: nat) | WriteBlocks | WriteFails
  datatype ParseAnswer = NeedsMore | Malformed | ParsedTo(size: nat)

  type Text = t: Bytes | t != [] witness [0]

  /** What the role makes of a finished stage: refuse it, or go on; a server goes on with a response. */
  datatype Verdict = Refuse | Proceed(response: Text, isError: bool)

  datatype Answer = Answer(write: WriteAnswer, parse: ParseAnswer, verdict: Verdict)

  datatype Role = Client | Server

  /**
   A handshake under way.  `message` is what this side has to write (a server learns it from the request)
   and `sent` is what the stream has taken of it; `failing` marks a server that answers with an error.
   */
  datatype Mid = Mid(role: Role, machine: Machine, failing: bool, message: Bytes, sent: Bytes)

  function StartClient(request: Text): Mid {
    Mid(Client, Writing(request), false, request, [])
  }

  function StartServer(): Mid {
    Mid(Server, START_READING, false, [], [])
  }

  datatype Round =
    | Blocked(mid: Mid) | Incomplete(mid: Mid) | DoneReading(mid: Mid, tail: Bytes) | DoneWriting(mid: Mid)
    | Broken(mid: Mid) | Panicked(mid: Mid)

  /** One round.  Reading looks only at bytes that are already in the buffer. */
  function SingleRound(m: Mid, a: Answer): Round {
    match m.machine
    case Reading(buffer, check) =>
      if buffer == [] then Blocked(m)
      else
        var check' := check.Counted(|buffer|);
        if !check'.Tolerable() then Broken(m)
        else
          (match a.parse
           case Malformed => Broken(m)
           case NeedsMore => Incomplete(m.(machine := Reading(buffer, check')))
           case ParsedTo(size) => DoneReading(m, buffer[Min(size, |buffer|)..]))
    case Writing(buffer) =>
      if buffer == [] then Panicked(m)
      else
        match a.write
        case WriteBlocks => Blocked(m)
        case WriteFails => Broken(m)
        case Wrote(size) =>
          if size == 0 then Panicked(m)
          else
            var n := Min(size, |buffer|);
            var m' := m.(machine := Writing(buffer[n..]), sent := m.sent + buffer[..n]);
            if n < |buffer| then Incomplete(m') else DoneWriting(m')
  }

  datatype Outcome = Done(mid: Mid) | Interrupted(mid: Mid) | Failed(mid: Mid) | Panics(mid: Mid)
  datatype Staged = Continue(mid: Mid) | End(outcome: Outcome)

  /** `stage_finished` of the two roles. */
  function StageFinished(r: Round, v: Verdict): Staged
    requires r.DoneReading? || r.DoneWriting?
  {
    var m := r.mid;
    match m.role
    case Client =>
      if r.DoneWriting? then Continue(m.(machine := START_READING))
      else if v.Refuse? then End(Failed(m)) else End(Done(m))
    case Server =>
      if r.DoneReading? then
        if r.tail != [] || v.Refuse? then End(Failed(m))
        else Continue(m.(machine := Writing(v.response), failing := v.isError, message := v.response, sent := []))
      else if m.failing then End(Failed(m)) else End(Done(m))
  }

  function Next(m: Mid, a: Answer): Staged {
    var r := SingleRound(m, a);
    match r
    case Blocked(m') => End(Interrupted(m'))
    case Incomplete(m') => Continue(m')
    case Broken(m') => End(Failed(m'))
    case Panicked(m') => End(Panics(m'))
    case DoneReading(_, _) => StageFinished(r, a.verdict)
    case DoneWriting(_) => StageFinished(r, a.verdict)
  }

  /**
   A server whose buffer parses to a request goes on with the response made of it, if no byte is left behind
   the request and it is not refused; otherwise the handshake fails.
   */
  lemma RequestJudged(m: Mid, a: Answer)
    requires m.role.Server? && m.machine.Reading? && m.machine.buffer != [] && a.parse.ParsedTo?
    requires m.machine.check.Counted(|m.machine.buffer|).Tolerable()
    ensures Next(m, a) == if a.parse.size >= |m.machine.buffer| && a.verdict.Proceed?
                          then Continue(Mid(Server, Writing(a.verdict.response), a.verdict.isError,
                                            a.verdict.response, []))
                          else End(Failed(m))
  {
  }

  /** A client that has written its request turns to reading; a server that has written its answer is done. */
  lemma LastBytesWritten(m: Mid, a: Answer)
    requires m.machine.Writing? && m.machine.buffer != [] && a.write.Wrote? && a.write.size >= |m.machine.buffer|
    ensures var sent := m.sent + m.machine.buffer;
            match Next(m, a)
            case Continue(m') => m.role.Client? && m' == m.(machine := Reading([], Check(0, 0)), sent := sent)
            case End(Done(m')) => m.role.Server? && !m.failing && m' == m.(machine := Writing([]), sent := sent)
            case End(Failed(m')) => m.role.Server? && m.failing && m' == m.(machine := Writing([]), sent := sent)
            case _ => false
  {
    var buffer := m.machine.buffer;
    assert buffer[|buffer|..] == [] && buffer[..|buffer|] == buffer;
  }

  /** The budget of a reading stage when these bytes are counted. */
  predicate Exceeds(check: Check, size: nat) {
    var packets, bytes := check.packets + 1, check.bytes + size;
    bytes > 65536 || packets > 512 || (packets > 64 && bytes < 128 * packets)
  }

  /** Exactly when a round ends in failure, and exactly when it is interrupted, with nothing changed. */
  lemma RoundEndsIff(m: Mid, a: Answer)
    requires m.machine.Writing? ==> m.machine.buffer != []
    ensures (Next(m, a).End? && Next(m, a).outcome.Failed?) <==>
              match m.machine
              case Writing(buffer) =>
                || a.write.WriteFails?
                || (a.write.Wrote? && a.write.size >= |buffer| && m.role.Server? && m.failing)
              case Reading(buffer, check) =>
                && buffer != []
                && (|| Exceeds(check, |buffer|) || a.parse.Malformed?
                    || (a.parse.ParsedTo? && (a.verdict.Refuse? || (m.role.Server? && a.parse.size < |buffer|))))
    ensures Next(m, a) == End(Interrupted(m)) <==>
              if m.machine.Writing? then a.write.WriteBlocks? else m.machine.buffer == []
  {
  }

  // ---------------------------------------------------------------- termination

  function StagesLeft(m: Mid): nat {
    if m.role.Client? == m.machine.Writing? then 1 else 0
  }

  /** Bytes to write, or reading rounds before the budget is used up. */
  function RoundsLeft(machine: Machine): nat {
    match machine
    case Writing(buffer) => |buffer|
    case Reading(_, check) => if check.packets <= MAX_PACKETS then MAX_PACKETS + 1 - check.packets else 0
  }

  /** Every round that does not end the call brings the end nearer. */
  lemma NextProgress(m: Mid, a: Answer)
    ensures var n := Next(m, a);
            n.Continue? ==>
              || StagesLeft(n.mid) < StagesLeft(m)
              || (StagesLeft(n.mid) == StagesLeft(m) && RoundsLeft(n.mid.machine) < RoundsLeft(m.machine))
  {
  }

  /** The loop: rounds until one ends the call. */
  function HandshakeFrom(m: Mid, answers: nat -> Answer, i: nat): Outcome
    decreases StagesLeft(m), RoundsLeft(m.machine)
  {
    NextProgress(m, answers(i));
    match Next(m, answers(i))
    case Continue(m') => HandshakeFrom(m', answers, i + 1)
    case End(o) => o
  }

  /** Rounds a call can take, when a response of at most `limit` bytes may have to be written. */
  function Budget(m: Mid, limit: nat): nat {
    RoundsLeft(m.machine) + 1 + if StagesLeft(m) == 0 then 0 else if m.role.Client? then MAX_PACKETS + 2 else limit + 1
  }

  ghost predicate ShortAnswers(answers: nat -> Answer, limit: nat) {
    forall i: nat :: answers(i).verdict.Proceed? ==> |answers(i).verdict.response| <= limit
  }

  lemma BudgetShrinks(m: Mid, a: Answer, limit: nat)
    requires a.verdict.Proceed? ==> |a.verdict.response| <= limit
    ensures Next(m, a).Continue? ==> Budget(Next(m, a).mid, limit) < Budget(m, limit)
  {
  }

  method Handshake(m: Mid, answers: nat -> Answer, ghost limit: nat) returns (o: Outcome, rounds: nat)
    ensures o == HandshakeFrom(m, answers, 0)
    ensures ShortAnswers(answers, limit) ==> rounds <= Budget(m, limit)
  {
    var mach := m;
    rounds := 0;
    while true
      invariant HandshakeFrom(mach, answers, rounds) == HandshakeFrom(m, answers, 0)
      invariant ShortAnswers(answers, limit) ==> rounds + Budget(mach, limit) <= Budget(m, limit)
      decreases StagesLeft(mach), RoundsLeft(mach.machine)
    {
      hide SingleRound, StageFinished;
      NextProgress(mach, answers(rounds));
      if ShortAnswers(answers, limit) {
        BudgetShrinks(mach, answers(rounds), limit);
      }
      match Next(mach, answers(rounds)) {
        case End(end) => return end, rounds + 1;
        case Continue(next) =>
          mach := next;
          rounds := rounds + 1;
      }
    }
  }

  // ---------------------------------------------------------------- panics

  /** Every successful write takes at least one byte. */
  ghost predicate WritesTake(answers: nat -> Answer) {
    forall i: nat :: answers(i).write.Wrote? ==> answers(i).write.size > 0
  }

  /** Then the assertions of a round hold, in this call and in every resumption. */
  lemma {:induction false} CallDoesNotPanic(m: Mid, answers: nat -> Answer, i: nat)
    requires m.machine != Writing([]) && WritesTake(answers)
    ensures var o := HandshakeFrom(m, answers, i); !o.Panics? && (o.Interrupted? ==> o.mid.machine != Writing([]))
    decreases StagesLeft(m), RoundsLeft(m.machine)
  {
    NextProgress(m, answers(i));
    var n := Next(m, answers(i));
    if n.Continue? {
      CallDoesNotPanic(n.mid, answers, i + 1);
    }
  }

  // ---------------------------------------------------------------- what is written

  /**
   What was taken and what is left make up the message; a client past writing has sent it all, and a server
   that still reads has no message yet.
   */
  predicate Accounted(m: Mid) {
    match m.machine
    case Writing(buffer) => m.sent + buffer == m.message
    case Reading(_, _) => if m.role.Client? then m.sent == m.message else m.sent == [] && m.message == []
  }

  /** Nothing is left to write: a client has gone on to reading, or the buffer is empty. */
  predicate WritingFinished(m: Mid) {
    match m.machine
    case Writing(buffer) => buffer == []
    case Reading(_, _) => m.role.Client?
  }

  /** However a call ends, the accounts are kept, and a handshake that is done has written everything. */
  predicate AccountedAtEnd(o: Outcome) {
    Accounted(o.mid) && (o.Done? ==> WritingFinished(o.mid))
  }

  lemma NextAccounted(m: Mid, a: Answer)
    requires Accounted(m)
    ensures var n := Next(m, a);
            if n.Continue? then Accounted(n.mid) else AccountedAtEnd(n.outcome)
  {
    if m.machine.Writing? && m.machine.buffer != [] && a.write.Wrote? && a.write.size > 0 {
      var buffer := m.machine.buffer;
      var n := Min(a.write.size, |buffer|);
      assert m.sent + buffer[..n] + buffer[n..] == m.sent + buffer;
      if n == |buffer| {
        assert m.sent + buffer[..n] == m.message;
      }
    }
  }

  lemma {:induction false} HandshakeAccounted(m: Mid, answers: nat -> Answer, i: nat)
    requires Accounted(m)
    ensures AccountedAtEnd(HandshakeFrom(m, answers, i))
    decreases StagesLeft(m), RoundsLeft(m.machine)
  {
    hide Next, Accounted, AccountedAtEnd;
    NextAccounted(m, answers(i));
    NextProgress(m, answers(i));
    var n := Next(m, answers(i));
    if n.Continue? {
      HandshakeAccounted(n.mid, answers, i + 1);
    }
  }

  /** Interrupted calls are resumed, each against its own answers. */
  function Resumed(m: Mid, calls: seq<nat -> Answer>): Outcome
    decreases calls
  {
    if calls == [] then Interrupted(m)
    else
      var o := HandshakeFrom(m, calls[0], 0);
      if o.Interrupted? then Resumed(o.mid, calls[1..]) else o
  }

  lemma {:induction false} ResumedAccounted(m: Mid, calls: seq<nat -> Answer>)
    requires Accounted(m)
    ensures AccountedAtEnd(Resumed(m, calls))
    decreases calls
  {
    hide HandshakeFrom;
    if calls != [] {
      HandshakeAccounted(m, calls[0], 0);
      var o := HandshakeFrom(m, calls[0], 0);
      if o.Interrupted? {
        ResumedAccounted(o.mid, calls[1..]);
      }
    }
  }

  /** The message is settled: a client's request, or the response a server has begun to write. */
  predicate Settled(m: Mid) {
    m.role.Client? || m.machine.Writing?
  }

  /** Whatever has been written is a prefix of `message`, and all of it exactly when writing is finished. */
  predicate Written(o: Outcome, message: Bytes) {
    && o.mid.message == message && o.mid.sent <= message
    && (o.mid.sent == message <==> WritingFinished(o.mid))
    && (o.Done? ==> o.mid.sent == message)
  }

  /**
   Over any interruptions and resumptions, from any point of a handshake whose message is settled, and
   however the last call ends: the bytes written are a prefix of the message, and equal to it exactly when
   the writing stage is finished.
   */
  lemma WritesThePrefix(m: Mid, calls: seq<nat -> Answer>)
    requires Accounted(m) && Settled(m)
    ensures Written(Resumed(m, calls), m.message)
  {
    hide Resumed;
    ResumedAccounted(m, calls);
    ResumedKeepsMessage(m, calls);
  }

  lemma {:induction false} ResumedKeepsMessage(m: Mid, calls: seq<nat -> Answer>)
    requires Settled(m)
    ensures var o := Resumed(m, calls); Settled(o.mid) && o.mid.message == m.message
    decreases calls
  {
    hide HandshakeFrom;
    if calls != [] {
      CallKeepsMessage(m, calls[0], 0);
      var o := HandshakeFrom(m, calls[0], 0);
      if o.Interrupted? {
        ResumedKeepsMessage(o.mid, calls[1..]);
      }
    }
  }

  lemma {:induction false} CallKeepsMessage(m: Mid, answers: nat -> Answer, i: nat)
    requires Settled(m)
    ensures var o := HandshakeFrom(m, answers, i); Settled(o.mid) && o.mid.message == m.message
    decreases StagesLeft(m), RoundsLeft(m.machine)
  {
    NextProgress(m, answers(i));
    var n := Next(m, answers(i));
    if n.Continue? {
      CallKeepsMessage(n.mid, answers, i + 1);
    }
  }

  /** A client, from its start. */
  lemma ClientWritesRequest(request: Text, calls: seq<nat -> Answer>)
    ensures Written(Resumed(StartClient(request), calls), request)
  {
    hide Resumed;
    WritesThePrefix(StartClient(request), calls);
  }

  /** The request that a server has in its buffer parses whole, within the budget, and is answered. */
  predicate RequestArrives(m: Mid, a: Answer) {
    && m.role.Server? && m.machine.Reading? && m.machine.buffer != []
    && m.machine.check.Counted(|m.machine.buffer|).Tolerable()
    && a.parse.ParsedTo? && a.parse.size >= |m.machine.buffer| && a.verdict.Proceed?
  }

  /** A server whose request has arrived writes the response made of it, in this call and its resumptions. */
  lemma ServerWritesResponse(m: Mid, answers: nat -> Answer, calls: seq<nat -> Answer>)
    requires RequestArrives(m, answers(0))
    ensures Written(Resumed(m, [answers] + calls), answers(0).verdict.response)
  {
    hide HandshakeFrom;
    var all := [answers] + calls;
    assert all[1..] == calls;
    var response := answers(0).verdict.response;
    ServerCallWrites(m, answers);
    var o := HandshakeFrom(m, answers, 0);
    if o.Interrupted? {
      WritesThePrefix(o.mid, calls);
    } else {
      assert Resumed(m, all) == o;
    }
  }

  lemma ServerCallWrites(m: Mid, answers: nat -> Answer)
    requires RequestArrives(m, answers(0))
    ensures var o, response := HandshakeFrom(m, answers, 0), answers(0).verdict.response;
            Accounted(o.mid) && Settled(o.mid) && o.mid.message == response && Written(o, response)
  {
    var response := answers(0).verdict.response;
    var n := Next(m, answers(0));
    assert n.Continue? && n.mid.machine == Writing(response) && n.mid.message == response && n.mid.sent == [];
    assert HandshakeFrom(m, answers, 0) == HandshakeFrom(n.mid, answers, 1);
    hide HandshakeFrom, Next;
    HandshakeAccounted(n.mid, answers, 1);
    CallKeepsMessage(n.mid, answers, 1);
  }

  // ---------------------------------------------------------------- completion

  /** Unread bytes within the budget, or a server that only has to write its good answer. */
  predicate Completable(m: Mid) {
    match m.machine
    case Reading(buffer, check) => buffer != [] && check.Counted(|buffer|).Tolerable()
    case Writing(buffer) => m.role.Server? && !m.failing && buffer != []
  }

  lemma {:induction false} OnlyCompletableCompletes(m: Mid, answers: nat -> Answer, i: nat)
    requires !Completable(m)
    ensures var o := HandshakeFrom(m, answers, i); !o.Done? && (o.Interrupted? ==> !Completable(o.mid))
    decreases StagesLeft(m), RoundsLeft(m.machine)
  {
    NextProgress(m, answers(i));
    var n := Next(m, answers(i));
    if n.Continue? {
      OnlyCompletableCompletes(n.mid, answers, i + 1);
    }
  }

  lemma CompletableCompletes(m: Mid) returns (answers: nat -> Answer)
    requires Completable(m)
    ensures HandshakeFrom(m, answers, 0).Done?
  {
    var size := |m.machine.buffer|;
    answers := _ => Answer(Wrote(size), ParsedTo(size), Proceed([0], false));
    var n := Next(m, answers(0));
    if n.Continue? {
      assert n.mid.machine == Writing([0]);
      var o := Next(n.mid, answers(1));
      assert HandshakeFrom(n.mid, answers, 1) == o.outcome;
    }
  }

  /** A call can complete a handshake exactly when it is completable at the start of the call. */
  lemma CompletesIff(m: Mid)
    ensures Completable(m) <==> exists answers: nat -> Answer :: HandshakeFrom(m, answers, 0).Done?
  {
    hide HandshakeFrom;
    if Completable(m) {
      var answers := CompletableCompletes(m);
      assert HandshakeFrom(m, answers, 0).Done?;
    } else {
      forall answers: nat -> Answer ensures !HandshakeFrom(m, answers, 0).Done? {
        OnlyCompletableCompletes(m, answers, 0);
      }
    }
  }

  /**
   No handshake that is started as a client or as a server ever completes, however often it is resumed and
   whatever the peer sends: the reading stage waits for bytes that nothing puts into its buffer.
   */
  lemma NeverCompletes(request: Text, calls: seq<nat -> Answer>)
    ensures !Resumed(StartClient(request), calls).Done? && !Resumed(StartServer(), calls).Done?
  {
    ResumedNeverCompletes(StartClient(request), calls);
    ResumedNeverCompletes(StartServer(), calls);
  }

  lemma {:induction false} ResumedNeverCompletes(m: Mid, calls: seq<nat -> Answer>)
    requires !Completable(m)
    ensures !Resumed(m, calls).Done?
    decreases calls
  {
    hide HandshakeFrom;
    if calls != [] {
      OnlyCompletableCompletes(m, calls[0], 0);
      var o := HandshakeFrom(m, calls[0], 0);
      if o.Interrupted? {
        ResumedNeverCompletes(o.mid, calls[1..]);
      }
    }
  }
}

module HandshakeObjects {
  import opened Handshakes

  class AttackCheck {
    var packets: nat
    var bytes: nat

    ghost function View(): Check
      reads this
    {
      Check(packets, bytes)
    }

    constructor ()
      ensures View() == Check(0, 0)
    {
      packets, bytes := 0, 0;
    }

    method CheckIncomingPacketSize(size: nat) returns (ok: bool)
      modifies this
      ensures View() == old(View()).Counted(size) && ok == View().Tolerable()
      ensures packets == old(packets) + 1 && bytes == old(bytes) + size
      ensures ok <==> bytes <= 65536 && packets <= 512 && (packets > 64 ==> 128 * packets <= bytes)
    {
      packets := packets + 1;
      bytes := bytes + size;
      if bytes > MAX_BYTES || packets > MAX_PACKETS {
        return false;
      }
      if packets > MIN_PACKET_CHECK_THRESHOLD && packets * MIN_PACKET_SIZE > bytes {
        return false;
      }
      return true;
    }
  }
}
