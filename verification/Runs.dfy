/**
 What a user of a node can rely on, in every run: any number of workers, any interleaving, any behaviour of
 the operating system and the peers.
 */
module Runs {
  import opened Base
  import opened ResourceIds
  import opened Remotes
  import opened Drivers
  import opened Nodes
  import opened Lifecycle

  // ---------------------------------------------------------------- the past only grows

  predicate Grows(p: Past, p': Past) {
    !p.life.Unborn? ==> !p'.life.Unborn? && p'.origin == p.origin && p.events <= p'.events && p.posted <= p'.posted
  }

  /** A past that comes into being with a listener as its origin comes from that listener. */
  ghost predicate GrowsFrom(n: Node, p: Past, p': Past) {
    && Grows(p, p')
    && (p.life.Unborn? && p'.origin.Some? ==>
          exists k: nat :: k < |n.drivers| && p'.origin.value in n.drivers[k].locals)
  }

  lemma MintGrows(n: Node, adapter: nat, local: bool, origin: Option<Id>, id: Id)
    requires Inv(n) && (local ==> origin.None?)
    requires origin.Some? ==> exists k: nat :: k < |n.drivers| && origin.value in n.drivers[k].locals
    ensures GrowsFrom(n, n.PastOf(id), Mint(n, adapter, local, origin).PastOf(id))
  {
    hide Pack, Adapter, IsLocal, BaseValue, CommandsBorn, IssuedOnce, Whole;
    var base := if local then n.nextLocal else n.nextRemote;
    assert Whole(n, id);
    OnlyUnbornHaveNoOrigin(n, id);
    if Mounted(adapter) && base < BASE_LIMIT && id == Pack(adapter, local, base) {
      FieldsDecode(adapter, local, base);
      MintedIsFresh(n, id);
    }
  }

  lemma OnlyUnbornHaveNoOrigin(n: Node, id: Id)
    requires n.Shaped() && Whole(n, id)
    ensures n.PastOf(id).life.Unborn? ==> n.PastOf(id) == UNBORN
  {
    hide EventsOk, SendsOk, BornOk, QueueOk, DriverOk, IsLocal;
  }

  lemma CarryGrows(n: Node, k: nat, a: Answer, id: Id)
    requires Inv(n) && k <= n.workers && n.queues[k] != []
    ensures GrowsFrom(n, n.PastOf(id), Carry(n, k, a).PastOf(id))
  {
    hide Process, Whole, IssuedOnce;
    assert Whole(n, id);
    OnlyUnbornHaveNoOrigin(n, id);
    assert Born(n, n.queues[k][0].id);
  }

  lemma PollGrows(n: Node, k: nat, own: Id, e: Effect, id: Id)
    requires Inv(n) && k <= n.workers && Born(n, own)
    ensures GrowsFrom(n, n.PastOf(id), Poll(n, k, own, e).PastOf(id))
  {
    hide Whole, IssuedOnce, CommandsBorn;
    assert Whole(n, id);
    OnlyUnbornHaveNoOrigin(n, id);
  }

  lemma TakeGrows(n: Node, step: Step, id: Id)
    requires Inv(n)
    ensures GrowsFrom(n, n.PastOf(id), Take(n, step).PastOf(id))
  {
    hide Whole, CommandsBorn, IssuedOnce, IsLocal, Adapter, ProcessRead, ProcessWrite, Mint, Poll, Carry;
    assert Whole(n, id);
    OnlyUnbornHaveNoOrigin(n, id);
    match step
    case MintRemote(adapter) => MintGrows(n, adapter, false, None, id);
    case MintLocal(adapter) => MintGrows(n, adapter, true, None, id);
    case Accept(k, l) =>
      if k <= n.workers && l in n.drivers[k].locals {
        MintGrows(n, Adapter(l), false, Some(l), id);
      }
    case PollRead(k, own, a) =>
      if k <= n.workers && Born(n, own) { PollGrows(n, k, own, ProcessRead(n.drivers[k], own, a), id); }
    case PollWrite(k, own, a) =>
      if k <= n.workers && Born(n, own) { PollGrows(n, k, own, ProcessWrite(n.drivers[k], own, a), id); }
    case ProcessNext(k, a) => if k <= n.workers && n.queues[k] != [] { CarryGrows(n, k, a, id); }
    case _ =>
  }

  lemma GrowsTransitive(p: Past, q: Past, r: Past)
    requires Grows(p, q) && Grows(q, r)
    ensures Grows(p, r)
  {
  }

  lemma {:induction false} RunGrows(n: Node, steps: seq<Step>, id: Id)
    requires Inv(n)
    ensures Grows(n.PastOf(id), Run(n, steps).PastOf(id))
    decreases steps
  {
    hide Whole, CommandsBorn, IssuedOnce, Take, Grows;
    if steps == [] {
      assert Grows(n.PastOf(id), n.PastOf(id)) by { GrowsReflexive(n.PastOf(id)); }
    } else {
      var n' := Take(n, steps[0]);
      TakeGrows(n, steps[0], id);
      TakeKeeps(n, steps[0]);
      RunGrows(n', steps[1..], id);
      GrowsTransitive(n.PastOf(id), n'.PastOf(id), Run(n', steps[1..]).PastOf(id));
    }
  }

  lemma GrowsReflexive(p: Past)
    ensures Grows(p, p)
  {
  }

  // ---------------------------------------------------------------- events

  lemma EventsLegal(n: Node, id: Id)
    requires Inv(n)
    ensures LegalEvents(n.PastOf(id).origin, n.PastOf(id).events)
  {
    hide CommandsBorn, IssuedOnce, OpenEvents, LifeOk, SendsOk, BornOk, QueueOk, DriverOk;
    assert Whole(n, id);
  }

  /**
   In every run, no thread panics and the events of every resource are legal: nothing; or one failed
   connection; or one ready event of the right kind, then messages, then at most one ending.
   */
  lemma EventsOfEveryRun(workers: nat, steps: seq<Step>, id: Id)
    requires workers > 0
    ensures var n := Run(NewNode(workers), steps);
            !n.panicked && LegalEvents(n.PastOf(id).origin, n.PastOf(id).events)
  {
    hide Whole, CommandsBorn, IssuedOnce, Run, LegalEvents;
    NewNodeInv(workers);
    RunKeeps(NewNode(workers), steps);
    EventsLegal(Run(NewNode(workers), steps), id);
  }

  predicate Ended(events: seq<Event>) {
    events != [] && events[|events| - 1] in {Lost, Closed, Connected(false)}
  }

  lemma EndedStays(origin: Option<Id>, before: seq<Event>, after: seq<Event>)
    requires LegalEvents(origin, before) && LegalEvents(origin, after) && before <= after && Ended(before)
    ensures after == before
  {
    var i := |before| - 1;
    assert after[i] == before[i];
  }

  /**
   After a disconnection, a failed connection or a close that found the resource, whatever happens next,
   nothing is ever emitted for it again.
   */
  lemma NothingAfterTheEnd(workers: nat, steps: seq<Step>, more: seq<Step>, id: Id)
    requires workers > 0 && Ended(Run(NewNode(workers), steps).PastOf(id).events)
    ensures Run(NewNode(workers), steps).Shaped()
    ensures Run(Run(NewNode(workers), steps), more).PastOf(id).events == Run(NewNode(workers), steps).PastOf(id).events
  {
    hide Whole, CommandsBorn, IssuedOnce, Run, LegalEvents, Ended;
    NewNodeInv(workers);
    RunKeeps(NewNode(workers), steps);
    var n := Run(NewNode(workers), steps);
    RunKeeps(n, more);
    RunGrows(n, more, id);
    var n' := Run(n, more);
    EventsLegal(n, id);
    EventsLegal(n', id);
    EndedIsBorn(n, id);
    EndedStays(n.PastOf(id).origin, n.PastOf(id).events, n'.PastOf(id).events);
  }

  lemma EndedIsBorn(n: Node, id: Id)
    requires n.Shaped() && Whole(n, id) && Ended(n.PastOf(id).events)
    ensures Born(n, id)
  {
    hide EventsOk, SendsOk, BornOk, QueueOk, DriverOk, IsLocal;
  }

  // ---------------------------------------------------------------- listeners

  /** Whoever was accepted was accepted by a listener: a local resource, registered on the master. */
  ghost predicate OriginsListen(n: Node) {
    forall id: Id | n.PastOf(id).origin.Some? ::
      IsLocal(n.PastOf(id).origin.value) && Born(n, n.PastOf(id).origin.value)
  }

  lemma TakeOriginsListen(n: Node, step: Step)
    requires Inv(n) && OriginsListen(n)
    ensures OriginsListen(Take(n, step))
  {
    hide Whole, CommandsBorn, IssuedOnce, Take, IsLocal;
    var n' := Take(n, step);
    forall id: Id | n'.PastOf(id).origin.Some?
      ensures IsLocal(n'.PastOf(id).origin.value) && Born(n', n'.PastOf(id).origin.value)
    {
      var l := n'.PastOf(id).origin.value;
      TakeGrows(n, step, id);
      if n.PastOf(id).life.Unborn? {
        var k: nat :| k < |n.drivers| && l in n.drivers[k].locals;
        assert Whole(n, l);
        ListenerIsLocal(n, l, k);
      }
      TakeGrows(n, step, l);
    }
  }

  lemma ListenerIsLocal(n: Node, id: Id, k: nat)
    requires n.Shaped() && k <= n.workers && Whole(n, id) && id in n.drivers[k].locals
    ensures IsLocal(id) && Born(n, id) && k == n.workers
  {
    hide EventsOk, SendsOk, BornOk, QueueOk, IsLocal, RegisterOk;
    assert DriverOk(n, id, k);
  }

  lemma {:induction false} RunOriginsListen(n: Node, steps: seq<Step>)
    requires Inv(n) && OriginsListen(n)
    ensures OriginsListen(Run(n, steps))
    decreases steps
  {
    hide Whole, CommandsBorn, IssuedOnce, Take, OriginsListen;
    if steps != [] {
      TakeOriginsListen(n, steps[0]);
      TakeKeeps(n, steps[0]);
      RunOriginsListen(Take(n, steps[0]), steps[1..]);
    }
  }

  // ---- every resource was issued

  ghost predicate AllIssued(n: Node) {
    forall id: Id | Born(n, id) :: id in n.issued
  }

  lemma TakeIssues(n: Node, step: Step, id: Id)
    requires n.Shaped() && (Born(n, id) ==> id in n.issued) && Born(Take(n, step), id)
    requires step.ProcessNext? && step.k <= n.workers && n.queues[step.k] != [] ==> Born(n, n.queues[step.k][0].id)
    ensures id in Take(n, step).issued
  {
    hide IsLocal, Adapter, ProcessRead, ProcessWrite, Process, Pack, LifeAfter, LifeAfterCommand;
  }

  lemma TakeAllIssued(n: Node, step: Step)
    requires Inv(n) && AllIssued(n)
    ensures AllIssued(Take(n, step))
  {
    hide Whole, IssuedOnce, Take, Born;
    forall id: Id | Born(Take(n, step), id) ensures id in Take(n, step).issued {
      TakeIssues(n, step, id);
    }
  }

  lemma {:induction false} RunAllIssued(n: Node, steps: seq<Step>)
    requires Inv(n) && AllIssued(n)
    ensures AllIssued(Run(n, steps))
    decreases steps
  {
    hide Whole, CommandsBorn, IssuedOnce, Take, AllIssued;
    if steps != [] {
      TakeAllIssued(n, steps[0]);
      TakeKeeps(n, steps[0]);
      RunAllIssued(Take(n, steps[0]), steps[1..]);
    }
  }

  /** The listener named in an `Accepted` event was issued as a listener in this run. */
  lemma AcceptedByAListener(workers: nat, steps: seq<Step>, id: Id)
    requires workers > 0
    ensures var n := Run(NewNode(workers), steps);
            var events := n.PastOf(id).events;
            forall i | 0 <= i < |events| && events[i].Accepted? ::
              && i == 0 && n.PastOf(id).origin == Some(events[i].listener)
              && IsLocal(events[i].listener) && events[i].listener in n.issued
  {
    hide Whole, CommandsBorn, IssuedOnce, Run, IsLocal;
    NewNodeInv(workers);
    RunOriginsListen(NewNode(workers), steps);
    RunAllIssued(NewNode(workers), steps);
    EventsOfEveryRun(workers, steps, id);
    var n := Run(NewNode(workers), steps);
    AcceptedFirst(n.PastOf(id).origin, n.PastOf(id).events);
  }

  lemma AcceptedFirst(origin: Option<Id>, events: seq<Event>)
    requires LegalEvents(origin, events)
    ensures forall i | 0 <= i < |events| && events[i].Accepted? :: i == 0 && origin == Some(events[i].listener)
  {
    forall i | 0 <= i < |events| && events[i].Accepted? ensures i == 0 && origin == Some(events[i].listener) {
      if i < |events| - 1 {
        assert events[..|events| - 1][i] == events[i];
      }
    }
  }

  // ---------------------------------------------------------------- sends

  /**
   The buffers given to the transport of a resource are a contiguous block of those posted for it, in
   posting order; what the socket took of each is a prefix, the whole when the status is `Sent`.
   */
  lemma SendsOfEveryRun(workers: nat, steps: seq<Step>, id: Id)
    requires workers > 0
    ensures var p := Run(NewNode(workers), steps).PastOf(id);
            (exists start: nat :: Block(p.posted, HandedOver(p.sends), start)) && Faithful(p.sends)
  {
    hide Whole, CommandsBorn, IssuedOnce, Run, Block, Faithful;
    NewNodeInv(workers);
    RunKeeps(NewNode(workers), steps);
    SendsAreABlock(Run(NewNode(workers), steps), id);
  }

  lemma SendsAreABlock(n: Node, id: Id)
    requires n.Shaped() && Whole(n, id)
    ensures var p := n.PastOf(id);
            (exists start: nat :: Block(p.posted, HandedOver(p.sends), start)) && Faithful(p.sends)
  {
    hide EventsOk, LifeOk, BornOk, QueueOk, DriverOk, Faithful;
    var p := n.PastOf(id);
    if !p.life.Over? && p.life != Live(true) {
      assert Block(p.posted, HandedOver(p.sends), 0);
    }
  }

  predicate AllSent(sends: seq<SendRecord>) {
    forall s | s in sends :: s.status.Sent?
  }

  /**
   On the socket of a TCP connection: exactly that block, when every send went through; and when only the
   last did not, the buffers before it and a prefix of its own.
   */
  lemma SocketOfEveryRun(workers: nat, steps: seq<Step>, id: Id)
    requires workers > 0 && Adapter(id) == TCP
    ensures var p := Run(NewNode(workers), steps).PastOf(id);
            && Faithful(p.sends)
            && (exists start: nat :: Block(p.posted, HandedOver(p.sends), start))
            && (AllSent(p.sends) ==> OnSocket(p.sends) == Concat(HandedOver(p.sends)))
            && (p.sends != [] && AllSent(p.sends[..|p.sends| - 1]) ==>
                  var front, last := p.sends[..|p.sends| - 1], p.sends[|p.sends| - 1];
                  last.written <= |last.data|
                  && OnSocket(p.sends) == Concat(HandedOver(front)) + last.data[..last.written])
  {
    hide Run, Block;
    SendsOfEveryRun(workers, steps, id);
    var sends := Run(NewNode(workers), steps).PastOf(id).sends;
    SocketOf(sends);
  }

  lemma SocketOf(sends: seq<SendRecord>)
    requires Faithful(sends)
    ensures AllSent(sends) ==> OnSocket(sends) == Concat(HandedOver(sends))
    ensures sends != [] && AllSent(sends[..|sends| - 1]) ==>
              var front, last := sends[..|sends| - 1], sends[|sends| - 1];
              last.written <= |last.data| && OnSocket(sends) == Concat(HandedOver(front)) + last.data[..last.written]
  {
    hide OnSocket, HandedOver, Concat;
    if AllSent(sends) {
      AllSentOnSocket(sends);
    }
    if sends != [] && AllSent(sends[..|sends| - 1]) {
      LastSendOnSocket(sends);
    }
  }

  // ---------------------------------------------------------------- identifiers and placement

  /**
   While no generator has run out, every identifier issued is new, is made of its fields and survives the
   trip through a poll token; a remote is registered on one thread at most, the worker it routes to, and a
   listener only on the master.
   */
  lemma PlacementInEveryRun(workers: nat, steps: seq<Step>)
    requires workers > 0
    ensures var n := Run(NewNode(workers), steps);
            && n.Shaped() && n.workers == workers
            && (forall i, j | 0 <= i < j < |n.issued| :: n.issued[i] != n.issued[j])
            && (forall i | 0 <= i < |n.issued| :: WellMade(n, n.issued[i])
                  && FromToken(ToToken(n.issued[i])) == n.issued[i])
            && (forall k: nat, id: Id | RegisteredOn(n, k, id) :: k == id % workers && !IsLocal(id))
            && (forall k: nat, id: Id | ListensOn(n, k, id) :: k == workers && IsLocal(id))
  {
    hide CommandsBorn, Run, Whole, IsLocal, ToToken, FromToken, ListensOn, RegisteredOn, WellMade;
    NewNodeInv(workers);
    RunKeeps(NewNode(workers), steps);
    var n := Run(NewNode(workers), steps);
    RunWorkers(NewNode(workers), steps);
    forall i | 0 <= i < |n.issued| ensures WellMade(n, n.issued[i]) && FromToken(ToToken(n.issued[i])) == n.issued[i] {
      assert Whole(n, n.issued[i]);
      BornHasToken(n, n.issued[i]);
    }
    ResourcesPlaced(n);
  }

  predicate RegisteredOn(n: Node, k: nat, id: Id) {
    k < |n.drivers| && id in n.drivers[k].remotes
  }

  predicate ListensOn(n: Node, k: nat, id: Id) {
    k < |n.drivers| && id in n.drivers[k].locals
  }

  lemma ResourcesPlaced(n: Node)
    requires Inv(n)
    ensures forall k: nat, id: Id | ListensOn(n, k, id) :: k == n.workers && IsLocal(id)
    ensures forall k: nat, id: Id | RegisteredOn(n, k, id) :: k == id % n.workers && !IsLocal(id)
  {
    hide CommandsBorn, IssuedOnce, Whole, IsLocal;
    forall k: nat, id: Id | ListensOn(n, k, id) ensures k == n.workers && IsLocal(id) {
      assert Whole(n, id);
      ListenerIsLocal(n, id, k);
    }
    forall k: nat, id: Id | RegisteredOn(n, k, id) ensures k == id % n.workers && !IsLocal(id) {
      assert Whole(n, id);
      RemoteIsPlaced(n, id, k);
    }
  }

  /** An identifier is made of its own fields: a mounted adapter, a type, and a base value its generator has passed. */
  predicate WellMade(n: Node, id: Id) {
    && Mounted(Adapter(id)) && 1 <= BaseValue(id) < (if IsLocal(id) then n.nextLocal else n.nextRemote)
    && id == Pack(Adapter(id), IsLocal(id), BaseValue(id))
  }

  lemma BornHasToken(n: Node, id: Id)
    requires n.Shaped() && Whole(n, id) && Born(n, id)
    ensures WellMade(n, id) && FromToken(ToToken(id)) == id
  {
    hide EventsOk, SendsOk, LifeOk, QueueOk, DriverOk, IsLocal, Adapter, Mounted, BaseValue, Pack;
    TokenRoundTrip(id);
    FieldsMake(id);
  }

  lemma RemoteIsPlaced(n: Node, id: Id, k: nat)
    requires n.Shaped() && k <= n.workers && Whole(n, id) && id in n.drivers[k].remotes
    ensures k == id % n.workers && !IsLocal(id)
  {
    hide EventsOk, SendsOk, BornOk, QueueOk, IsLocal, RegisterOk;
    assert DriverOk(n, id, k);
  }

  lemma {:induction false} RunWorkers(n: Node, steps: seq<Step>)
    requires n.Shaped()
    ensures Run(n, steps).workers == n.workers
    decreases steps
  {
    hide Take;
    if steps != [] {
      TakeShaped(n, steps[0]);
      RunWorkers(Take(n, steps[0]), steps[1..]);
    }
  }

  /**
   In every run, a registered WebSocket remote that is ready is a WebSocket, so `receive` and `send` find
   one; and one that is not ready holds its handshake, so `pending` can take it.
   */
  lemma WebSocketStatesInEveryRun(workers: nat, steps: seq<Step>, k: nat, id: Id)
    requires workers > 0 && RegisteredOn(Run(NewNode(workers), steps), k, id)
    ensures var reg := Run(NewNode(workers), steps).drivers[k].remotes[id];
            && (reg.resource.Ws? <==> Adapter(id) == WS)
            && (reg.resource.Ws? && reg.ready ==> reg.resource.state == WebSocket)
            && (reg.resource.Ws? && !reg.ready ==> reg.resource.state.Handshake? && reg.resource.state.pending.Some?)
  {
    hide CommandsBorn, IssuedOnce, Run, Whole, Adapter;
    NewNodeInv(workers);
    RunKeeps(NewNode(workers), steps);
    var n := Run(NewNode(workers), steps);
    assert Whole(n, id);
    RegisteredIsOk(n, k, id);
  }

  lemma RegisteredIsOk(n: Node, k: nat, id: Id)
    requires n.Shaped() && RegisteredOn(n, k, id) && Whole(n, id)
    ensures RegisterOk(id, n.PastOf(id), n.drivers[k].remotes[id])
  {
    hide PastOk, QueueOk, RegisterOk;
    assert DriverOk(n, id, k);
  }
}
