/**
 The remote side of a connection as the drivers see it: the TCP adapter (`src/adapters/tcp/tcp_adapter.rs`)
 and the WebSocket adapter (`src/adapters/ws/ws_adapter.rs`).
 */
module Remotes {
  import opened Base

  datatype PendingStatus = Ready | Incomplete | Disconnected
  datatype SendStatus = Sent | MaxPacketSizeExceeded | ResourceNotFound | ResourceNotAvailable | SendAbort

  /** How far a WebSocket handshake has come: a socket still connecting, just accepted, or interrupted. */
  datatype Pending = Connecting | Accepting | ClientHandshake | ServerHandshake
  datatype WsState = WebSocket | Handshake(pending: Option<Pending>) | Failed

  datatype Resource = Tcp | Ws(state: WsState)

  datatype HandshakeEnd = Finished | Interrupted | Failure

  /** What one `write` on the socket answers. */
  datatype SendEvent = Took(count: nat) | Blocked | Broken

  /**
   What the operating system, the peer and the handshake answer during one call: whether the socket is
   connected, how a handshake round ends, the buffers received and whether the connection was lost, whether
   a socket could be opened, the answers to writes, and the status of a WebSocket send.
   */
  datatype Answer = Answer(tcp: PendingStatus, handshake: HandshakeEnd, received: seq<Bytes>, lost: bool,
                           socketMade: bool, writes: seq<SendEvent>, wsStatus: SendStatus)

  // ---------------------------------------------------------------- pending

  /** `None` is a panic: `pending` on a failed remote, or on one whose handshake was taken and not put back. */
  function Resume(next: Pending, a: Answer): (PendingStatus, Resource) {
    match a.handshake
    case Finished => (Ready, Ws(WebSocket))
    case Interrupted => (Incomplete, Ws(Handshake(Some(next))))
    case Failure => (Disconnected, Ws(Failed))
  }

  function PendingCall(r: Resource, a: Answer): Option<(PendingStatus, Resource)> {
    match r
    case Tcp => Some((a.tcp, r))
    case Ws(WebSocket) => Some((Ready, r))
    case Ws(Failed) => None
    case Ws(Handshake(None)) => None
    case Ws(Handshake(Some(Connecting))) =>
      if a.tcp.Ready? then Some(Resume(ClientHandshake, a)) else Some((a.tcp, r))
    case Ws(Handshake(Some(Accepting))) => Some(Resume(ServerHandshake, a))
    case Ws(Handshake(Some(ClientHandshake))) => Some(Resume(ClientHandshake, a))
    case Ws(Handshake(Some(ServerHandshake))) => Some(Resume(ServerHandshake, a))
  }

  /** `receive` and `send` are unreachable before the handshake is over. */
  predicate Usable(r: Resource) {
    r.Ws? ==> r.state.WebSocket?
  }

  predicate Unsettled(r: Resource) {
    r.Ws? ==> r.state.Handshake? && r.state.pending.Some?
  }

  /** A pending call on an unsettled remote never panics and leaves it usable, unsettled or abandoned. */
  lemma PendingSettles(r: Resource, a: Answer)
    requires Unsettled(r)
    ensures var p := PendingCall(r, a);
            && p.Some? && p.value.1.Tcp? == r.Tcp?
            && (p.value.0.Ready? ==> Usable(p.value.1))
            && (p.value.0.Incomplete? ==> Unsettled(p.value.1))
            && (p.value.1.Ws? && p.value.1.state.Handshake? ==> p.value.1.state.pending.Some?)
  {
  }

  // ---------------------------------------------------------------- sending over TCP

  const MAX_TRIES: nat := 1000

  datatype Sending = Sending(status: SendStatus, written: nat)

  /** Write what is left, as often as there are tries; a script that has run out blocks. */
  function SendFrom(data: Bytes, sent: nat, writes: seq<SendEvent>, tries: nat): Sending
    requires sent <= |data|
    decreases tries
  {
    if tries == 0 then Sending(SendAbort, sent)
    else if writes == [] || writes[0].Blocked? then
      SendFrom(data, sent, if writes == [] then [] else writes[1..], tries - 1)
    else if writes[0].Broken? then Sending(ResourceNotFound, sent)
    else
      var total := sent + Min(writes[0].count, |data| - sent);
      if total == |data| then Sending(Sent, total) else SendFrom(data, total, writes[1..], tries - 1)
  }

  /** A prefix is written; `Sent` means the whole, and the whole (of more than nothing) means `Sent`. */
  lemma {:induction false} SendWritesPrefix(data: Bytes, sent: nat, writes: seq<SendEvent>, tries: nat)
    requires sent <= |data|
    ensures var s := SendFrom(data, sent, writes, tries);
            && sent <= s.written <= |data|
            && (s.status.Sent? ==> s.written == |data|)
            && (s.written == |data| && sent < |data| ==> s.status.Sent?)
    decreases tries
  {
    if tries > 0 {
      if writes == [] || writes[0].Blocked? {
        SendWritesPrefix(data, sent, if writes == [] then [] else writes[1..], tries - 1);
      } else if writes[0].Took? {
        var total := sent + Min(writes[0].count, |data| - sent);
        if total < |data| {
          SendWritesPrefix(data, total, writes[1..], tries - 1);
        }
      }
    }
  }

  // ---- when a send ends, and how

  /** The answer to the write number `i`. */
  function AnswerAt(writes: seq<SendEvent>, i: nat): SendEvent {
    if i < |writes| then writes[i] else Blocked
  }

  /** The bytes that the first `k` answers took or would take, however much is left. */
  function Offered(writes: seq<SendEvent>, k: nat): nat
    decreases k
  {
    if k == 0 then 0
    else Offered(writes, k - 1) + if AnswerAt(writes, k - 1).Took? then AnswerAt(writes, k - 1).count else 0
  }

  /** The write number `i` ends a send of `need` bytes: it is broken, or takes the last of them. */
  predicate Ends(writes: seq<SendEvent>, need: nat, i: nat) {
    AnswerAt(writes, i).Broken? || (AnswerAt(writes, i).Took? && Offered(writes, i + 1) >= need)
  }

  predicate EndsFirst(writes: seq<SendEvent>, need: nat, k: nat) {
    Ends(writes, need, k) && forall i | 0 <= i < k :: !Ends(writes, need, i)
  }

  function Tail(writes: seq<SendEvent>): seq<SendEvent> {
    if writes == [] then [] else writes[1..]
  }

  lemma AnswerTail(writes: seq<SendEvent>, i: nat)
    ensures AnswerAt(Tail(writes), i) == AnswerAt(writes, i + 1)
  {
  }

  /** What the first answer offers. */
  function First(writes: seq<SendEvent>): nat {
    if AnswerAt(writes, 0).Took? then AnswerAt(writes, 0).count else 0
  }

  lemma {:induction false} OfferedTail(writes: seq<SendEvent>, k: nat)
    ensures Offered(writes, k + 1) == First(writes) + Offered(Tail(writes), k)
    decreases k
  {
    hide AnswerAt, Tail;
    if k > 0 {
      OfferedTail(writes, k - 1);
      AnswerTail(writes, k - 1);
    } else {
      assert Offered(writes, 0) == 0 && Offered(Tail(writes), 0) == 0;
    }
  }

  lemma EndsTail(writes: seq<SendEvent>, need: nat, i: nat)
    requires First(writes) < need
    ensures Ends(Tail(writes), need - First(writes), i) == Ends(writes, need, i + 1)
  {
    hide AnswerAt, Tail, Offered, First;
    AnswerTail(writes, i);
    OfferedTail(writes, i + 1);
  }

  /** How a send ends that has this many tries: after which write, with which status, and how much is written. */
  ghost predicate EndsWith(writes: seq<SendEvent>, need: nat, tries: nat, k: nat, status: SendStatus, written: nat) {
    if k < tries then
      && EndsFirst(writes, need, k)
      && (if AnswerAt(writes, k).Broken? then status == ResourceNotFound && written == Offered(writes, k)
          else status == Sent && written == need)
    else
      && k == tries && (forall i | 0 <= i < tries :: !Ends(writes, need, i))
      && status == SendAbort && written == Offered(writes, tries)
  }

  lemma OneMoreAnswer(writes: seq<SendEvent>, need: nat, tries: nat, k: nat, status: SendStatus, written: nat)
    requires First(writes) < need && !AnswerAt(writes, 0).Broken?
    requires EndsWith(Tail(writes), need - First(writes), tries, k, status, written)
    ensures EndsWith(writes, need, tries + 1, k + 1, status, First(writes) + written)
  {
    hide AnswerAt, Tail, Offered, First, Ends;
    var tail, left := Tail(writes), need - First(writes);
    forall i: nat ensures Ends(tail, left, i) == Ends(writes, need, i + 1) {
      EndsTail(writes, need, i);
    }
    assert !Ends(writes, need, 0) by { FirstDoesNotEnd(writes, need); }
    forall i | 0 <= i < k + 1 ensures !Ends(writes, need, i) {
      if i > 0 {
        assert !Ends(tail, left, i - 1);
      }
    }
    AnswerTail(writes, k);
    OfferedTail(writes, k);
    OfferedTail(writes, tries);
  }

  lemma FirstDoesNotEnd(writes: seq<SendEvent>, need: nat)
    requires First(writes) < need && !AnswerAt(writes, 0).Broken?
    ensures !Ends(writes, need, 0)
  {
    assert Offered(writes, 0) == 0;
  }

  lemma {:induction false} SendEnds(data: Bytes, sent: nat, writes: seq<SendEvent>, tries: nat) returns (k: nat)
    requires sent <= |data|
    requires sent < |data| || sent == 0
    ensures var s := SendFrom(data, sent, writes, tries);
            sent <= s.written && EndsWith(writes, |data| - sent, tries, k, s.status, s.written - sent)
    decreases tries
  {
    hide EndsWith;
    var need := |data| - sent;
    var first := AnswerAt(writes, 0);
    var total := sent + Min(First(writes), need);
    if tries == 0 {
      k := 0;
      NoTries(writes, need);
    } else if first.Broken? || (first.Took? && First(writes) >= need) {
      k := 0;
      EndsAtOnce(writes, need, tries);
    } else if need > 0 {
      var s := SendFrom(data, total, Tail(writes), tries - 1);
      k := SendEnds(data, total, Tail(writes), tries - 1);
      OneMoreAnswer(writes, need, tries - 1, k, s.status, s.written - total);
      k := k + 1;
    } else {
      k := SendEnds(data, sent, Tail(writes), tries - 1);
      var s := SendFrom(data, sent, Tail(writes), tries - 1);
      NothingToSend(writes, tries - 1, k, s.status, s.written - sent);
      k := k + 1;
    }
  }

  lemma NoTries(writes: seq<SendEvent>, need: nat)
    ensures EndsWith(writes, need, 0, 0, SendAbort, 0)
  {
  }

  lemma EndsAtOnce(writes: seq<SendEvent>, need: nat, tries: nat)
    requires tries > 0
    requires var first := AnswerAt(writes, 0); first.Broken? || (first.Took? && First(writes) >= need)
    ensures if AnswerAt(writes, 0).Broken? then EndsWith(writes, need, tries, 0, ResourceNotFound, 0)
            else EndsWith(writes, need, tries, 0, Sent, need)
  {
    assert Offered(writes, 0) == 0;
  }

  /** An empty buffer is sent by the first write that takes anything, nothing included. */
  lemma NothingToSend(writes: seq<SendEvent>, tries: nat, k: nat, status: SendStatus, written: nat)
    requires AnswerAt(writes, 0).Blocked?
    requires EndsWith(Tail(writes), 0, tries, k, status, written)
    ensures EndsWith(writes, 0, tries + 1, k + 1, status, written)
  {
    hide Tail, Offered;
    forall i: nat ensures Ends(Tail(writes), 0, i) == Ends(writes, 0, i + 1) {
      AnswerTail(writes, i);
    }
    hide AnswerAt;
    forall i | 0 <= i < k + 1 ensures !Ends(writes, 0, i) {
      if i > 0 {
        assert !Ends(Tail(writes), 0, i - 1);
      }
    }
    AnswerTail(writes, k);
    OfferedTail(writes, k);
    OfferedTail(writes, tries);
    hide Ends;
  }

  /**
   A send tries a thousand writes.  It is `Sent` exactly when one of them takes the last of the bytes before
   any is broken, and then all are written; `ResourceNotFound` exactly when one is broken before that; and
   `SendAbort` otherwise.  Whatever the writes before the end offered to take has been written.
   */
  lemma SendStatusIff(data: Bytes, writes: seq<SendEvent>)
    ensures var s := SendFrom(data, 0, writes, MAX_TRIES);
            && (s.status.Sent? <==>
                  exists k | 0 <= k < 1000 :: EndsFirst(writes, |data|, k) && AnswerAt(writes, k).Took?)
            && (s.status.ResourceNotFound? <==>
                  exists k | 0 <= k < 1000 :: EndsFirst(writes, |data|, k) && AnswerAt(writes, k).Broken?)
            && (s.status.SendAbort? <==> forall k | 0 <= k < 1000 :: !Ends(writes, |data|, k))
            && (s.status.Sent? ==> s.written == |data|)
            && (s.status.SendAbort? ==> s.written == Offered(writes, 1000))
            && (forall k | 0 <= k < 1000 && EndsFirst(writes, |data|, k) && AnswerAt(writes, k).Broken? ::
                  s.written == Offered(writes, k))
  {
    hide AnswerAt, SendFrom, Offered;
    var k := SendEnds(data, 0, writes, MAX_TRIES);
  }

  method SendTcp(data: Bytes, writes: seq<SendEvent>) returns (status: SendStatus, written: nat)
    ensures Sending(status, written) == SendFrom(data, 0, writes, MAX_TRIES)
    ensures written <= |data| && (status.Sent? ==> written == |data|)
    ensures data != [] && written == |data| ==> status.Sent?
  {
    SendWritesPrefix(data, 0, writes, MAX_TRIES);
    written := 0;
    var script := writes;
    for i := 0 to MAX_TRIES
      invariant written <= |data|
      invariant SendFrom(data, written, script, MAX_TRIES - i) == SendFrom(data, 0, writes, MAX_TRIES)
    {
      var event := if script == [] then Blocked else script[0];
      script := if script == [] then [] else script[1..];
      match event {
        case Took(count) =>
          written := written + Min(count, |data| - written);
          if written == |data| {
            return Sent, written;
          }
        case Blocked =>
        case Broken =>
          return ResourceNotFound, written;
      }
    }
    return SendAbort, written;
  }

  // ---------------------------------------------------------------- a record of sends

  datatype SendRecord = SendRecord(data: Bytes, status: SendStatus, written: nat)

  /**
   What a driver does with a send for a ready remote.  A WebSocket takes a message whole or reports why not;
   the bytes it then writes are its context's affair.
   */
  function SendCall(r: Resource, data: Bytes, a: Answer): Option<SendRecord> {
    if !Usable(r) then None
    else if r.Tcp? then
      var s := SendFrom(data, 0, a.writes, MAX_TRIES);
      Some(SendRecord(data, s.status, s.written))
    else Some(SendRecord(data, a.wsStatus, if a.wsStatus.Sent? then |data| else 0))
  }

  function HandedOver(sends: seq<SendRecord>): seq<Bytes> {
    if sends == [] then [] else HandedOver(sends[..|sends| - 1]) + [sends[|sends| - 1].data]
  }

  predicate Faithful(sends: seq<SendRecord>) {
    forall s | s in sends :: s.written <= |s.data| && (s.status.Sent? ==> s.written == |s.data|)
  }

  /** The bytes the socket of a TCP remote has taken. */
  function OnSocket(sends: seq<SendRecord>): Bytes
    requires Faithful(sends)
  {
    if sends == [] then []
    else
      var last := sends[|sends| - 1];
      assert last in sends;
      OnSocket(sends[..|sends| - 1]) + last.data[..last.written]
  }

  /** When every send reports `Sent`, the socket took the concatenation of the buffers. */
  lemma {:induction false} AllSentOnSocket(sends: seq<SendRecord>)
    requires Faithful(sends)
    requires forall s | s in sends :: s.status.Sent?
    ensures OnSocket(sends) == Concat(HandedOver(sends))
  {
    if sends != [] {
      var front, last := sends[..|sends| - 1], sends[|sends| - 1];
      assert last in sends;
      AllSentOnSocket(front);
      ConcatSnoc(HandedOver(front), last.data);
      assert last.data[..last.written] == last.data;
    }
  }

  /** A last send with another status leaves a prefix of its buffer. */
  lemma LastSendOnSocket(sends: seq<SendRecord>)
    requires sends != [] && Faithful(sends)
    requires forall s | s in sends[..|sends| - 1] :: s.status.Sent?
    ensures var front, last := sends[..|sends| - 1], sends[|sends| - 1];
            && last.written <= |last.data|
            && OnSocket(sends) == Concat(HandedOver(front)) + last.data[..last.written]
  {
    assert sends[|sends| - 1] in sends;
    AllSentOnSocket(sends[..|sends| - 1]);
  }
}
