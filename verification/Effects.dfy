/**
 What each step of a node does, said step by step and without the functions that compute it: what a poll event
 shows the user, what each command leaves behind, and where a user's call is posted
 (`src/adapters/tcp/tcp_driver.rs`, `src/network.rs`, `src/node.rs`).
 */
module Effects {
  import opened Base
  import opened ResourceIds
  import opened Remotes
  import opened Drivers
  import opened Nodes
  import opened Lifecycle

  // ---------------------------------------------------------------- pending remotes

  /**
   How far a remote that is not ready has come: a TCP socket is as far as its connection; a WebSocket follows
   its connection until that is there, and from then on its handshake.
   */
  function StatusOf(r: Resource, a: Answer): PendingStatus
    requires Unsettled(r)
  {
    if r.Tcp? || (r.state.pending.value.Connecting? && !a.tcp.Ready?) then a.tcp
    else
      match a.handshake
      case Finished => Ready
      case Interrupted => Incomplete
      case Failure => Disconnected
  }

  /** What a remote becomes while its handshake goes on: a client's or a server's, once it has begun. */
  function Onward(r: Resource, a: Answer): Resource
    requires Unsettled(r)
  {
    if r.Tcp? || (r.state.pending.value.Connecting? && !a.tcp.Ready?) then r
    else
      var client := r.state.pending.value.Connecting? || r.state.pending.value.ClientHandshake?;
      Ws(Handshake(Some(if client then ClientHandshake else ServerHandshake)))
  }

  lemma PendingStatusIs(r: Resource, a: Answer)
    requires Unsettled(r)
    ensures var p := PendingCall(r, a);
            && p.Some? && p.value.0 == StatusOf(r, a)
            && (p.value.0.Ready? ==> p.value.1 == if r.Tcp? then Tcp else Ws(WebSocket))
            && (p.value.0.Incomplete? ==> p.value.1 == Onward(r, a))
  {
  }

  // ---------------------------------------------------------------- poll events

  function AsEvents(data: seq<Bytes>): seq<Event> {
    if data == [] then [] else [Event.Message(data[0])] + AsEvents(data[1..])
  }

  lemma {:induction false} AsEventsAt(data: seq<Bytes>)
    ensures |AsEvents(data)| == |data| && forall i | 0 <= i < |data| :: AsEvents(data)[i] == Event.Message(data[i])
  {
    if data != [] {
      AsEventsAt(data[1..]);
    }
  }

  lemma MessagesAreEvents(data: seq<Bytes>)
    ensures Drivers.Messages(data) == AsEvents(data)
  {
    AsEventsAt(data);
  }

  /** Whether a remote is ready once it has been asked. */
  predicate ReadyThen(reg: Register, a: Answer)
    requires !reg.ready ==> Unsettled(reg.resource)
  {
    reg.ready || StatusOf(reg.resource, a).Ready?
  }

  predicate FailsThen(reg: Register, a: Answer)
    requires !reg.ready ==> Unsettled(reg.resource)
  {
    !reg.ready && StatusOf(reg.resource, a).Disconnected?
  }

  /** What asking shows: that the remote is ready now, by whom accepted, or that its connection failed. */
  function AskingShows(reg: Register, a: Answer): seq<Event>
    requires !reg.ready ==> Unsettled(reg.resource)
  {
    if !reg.ready && ReadyThen(reg, a) then
      [if reg.local.Some? then Accepted(reg.local.value) else Connected(true)]
    else if FailsThen(reg, a) && reg.local.None? then [Connected(false)]
    else []
  }

  /** What a readable event shows: then every buffer received, in order, and the loss of the connection. */
  function ReadingShows(reg: Register, a: Answer): seq<Event>
    requires !reg.ready ==> Unsettled(reg.resource)
  {
    AskingShows(reg, a)
    + if ReadyThen(reg, a) then AsEvents(a.received) + (if a.lost then [Lost] else []) else []
  }

  lemma HeldRegister(n: Node, k: nat, id: Id)
    requires n.Shaped() && k <= n.workers && Whole(n, id) && id in n.drivers[k].remotes
    ensures Born(n, id) && !IsLocal(id) && Mounted(Adapter(id)) && k == n.Route(id)
    ensures RegisterOk(id, n.PastOf(id), n.drivers[k].remotes[id])
  {
    hide EventsOk, SendsOk, QueueOk, RegisterOk, IsLocal, Adapter, Mounted, BaseValue;
    assert DriverOk(n, id, k);
  }

  lemma SettleShows(d: Driver, id: Id, a: Answer)
    requires id in d.remotes
    requires var reg := d.remotes[id]; if reg.ready then Usable(reg.resource) else Unsettled(reg.resource)
    ensures var reg, s := d.remotes[id], Settle(d, id, a);
            && s.ok && s.events == AskingShows(reg, a)
            && (s.reg.ready <==> ReadyThen(reg, a)) && s.driver.locals == d.locals
            && (id in s.driver.remotes <==> !FailsThen(reg, a))
            && (id in s.driver.remotes ==> s.driver.remotes[id] == s.reg)
            && (s.reg.ready ==> Usable(s.reg.resource))
            && (!reg.ready && !FailsThen(reg, a) && !ReadyThen(reg, a) ==> s.reg.resource == Onward(reg.resource, a))
  {
    hide PendingCall;
    var reg := d.remotes[id];
    if !reg.ready {
      PendingStatusIs(reg.resource, a);
      PendingSettles(reg.resource, a);
    }
  }

  /**
   A readable event for a registered remote: what the user is shown, and exactly when the remote stays
   registered.
   */
  lemma ReadShows(n: Node, k: nat, id: Id, a: Answer)
    requires Inv(n) && k <= n.workers && id in n.drivers[k].remotes
    ensures var reg := n.drivers[k].remotes[id];
            && (!reg.ready ==> Unsettled(reg.resource)) && reg.local == n.PastOf(id).origin
            && var n' := Take(n, PollRead(k, id, a));
               && n'.PastOf(id).events == n.PastOf(id).events + ReadingShows(reg, a)
               && (id in n'.drivers[k].remotes <==> !FailsThen(reg, a) && !(ReadyThen(reg, a) && a.lost))
               && (id in n'.drivers[k].remotes ==> (n'.drivers[k].remotes[id].ready <==> ReadyThen(reg, a)))
               && n'.queues == n.queues
  {
    hide Settle, PendingCall, Whole, CommandsBorn, IssuedOnce, LifeAfter, Drivers.Messages, IsLocal, Adapter, Mounted;
    assert Whole(n, id);
    HeldRegister(n, k, id);
    var d := n.drivers[k];
    SettleShows(d, id, a);
    MessagesAreEvents(a.received);
    var reg := d.remotes[id];
    var e := ProcessRead(d, id, a);
    assert e.events == ReadingShows(reg, a);
  }

  /** A writable event asks a remote that is not ready, and does nothing else. */
  lemma WriteShows(n: Node, k: nat, id: Id, a: Answer)
    requires Inv(n) && k <= n.workers && id in n.drivers[k].remotes
    ensures var reg := n.drivers[k].remotes[id];
            && (!reg.ready ==> Unsettled(reg.resource))
            && var n' := Take(n, PollWrite(k, id, a));
               && n'.PastOf(id).events == n.PastOf(id).events + AskingShows(reg, a)
               && (id in n'.drivers[k].remotes <==> !FailsThen(reg, a))
               && (id in n'.drivers[k].remotes ==> (n'.drivers[k].remotes[id].ready <==> ReadyThen(reg, a)))
               && n'.queues == n.queues
  {
    hide Settle, PendingCall, Whole, CommandsBorn, IssuedOnce, LifeAfter, IsLocal, Adapter, Mounted;
    assert Whole(n, id);
    HeldRegister(n, k, id);
    SettleShows(n.drivers[k], id, a);
  }

  /** A poll event for a resource that is not registered there, a stale one say, shows and changes nothing. */
  lemma StaleShowsNothing(n: Node, k: nat, id: Id, a: Answer)
    requires Inv(n) && k <= n.workers && id !in n.drivers[k].remotes && Born(n, id)
    ensures var n' := Take(n, PollRead(k, id, a));
            n'.drivers == n.drivers && n'.PastOf(id).events == n.PastOf(id).events && n'.queues == n.queues
    ensures var n' := Take(n, PollWrite(k, id, a));
            n'.drivers == n.drivers && n'.PastOf(id).events == n.PastOf(id).events && n'.queues == n.queues
  {
    hide Settle, Whole, CommandsBorn, IssuedOnce, LifeAfter, IsLocal, Adapter, Mounted;
    assert n.PastOf(id).events + [] == n.PastOf(id).events;
  }

  // ---- over a run: every buffer received is shown, once, in order

  /** The data of the messages shown. */
  function DataShown(events: seq<Event>): seq<Bytes> {
    if events == [] then [] else (if events[0].Message? then [events[0].data] else []) + DataShown(events[1..])
  }

  lemma {:induction false} DataShownAppend(x: seq<Event>, y: seq<Event>)
    ensures DataShown(x + y) == DataShown(x) + DataShown(y)
  {
    if x == [] {
      assert x + y == y;
    } else {
      assert (x + y)[0] == x[0] && (x + y)[1..] == x[1..] + y;
      DataShownAppend(x[1..], y);
    }
  }

  lemma {:induction false} DataShownOfEvents(data: seq<Bytes>)
    ensures DataShown(AsEvents(data)) == data
  {
    if data != [] {
      var events := AsEvents(data);
      assert events[0] == Event.Message(data[0]) && events[1..] == AsEvents(data[1..]);
      DataShownOfEvents(data[1..]);
    }
  }

  /** The buffers that a step receives for a resource: those of a readable event that finds its remote ready. */
  function ReceivedIn(n: Node, step: Step, id: Id): seq<Bytes>
    requires n.Shaped()
  {
    if step.PollRead? && step.id == id && step.k <= n.workers && id in n.drivers[step.k].remotes then
      var reg := n.drivers[step.k].remotes[id];
      if reg.ready || (Unsettled(reg.resource) && StatusOf(reg.resource, step.answer).Ready?)
      then step.answer.received else []
    else []
  }

  function ReceivedBy(n: Node, steps: seq<Step>, id: Id): seq<Bytes>
    requires n.Shaped()
    decreases steps
  {
    if steps == [] then []
    else
      TakeShaped(n, steps[0]);
      ReceivedIn(n, steps[0], id) + ReceivedBy(Take(n, steps[0]), steps[1..], id)
  }

  lemma AskingShowsNoData(reg: Register, a: Answer)
    requires !reg.ready ==> Unsettled(reg.resource)
    ensures DataShown(AskingShows(reg, a)) == []
  {
    assert AskingShows(reg, a) == [] || AskingShows(reg, a)[1..] == [];
  }

  lemma ReadingShowsData(reg: Register, a: Answer)
    requires !reg.ready ==> Unsettled(reg.resource)
    ensures DataShown(ReadingShows(reg, a)) == if ReadyThen(reg, a) then a.received else []
  {
    hide StatusOf, AskingShows, DataShown;
    var lost := if a.lost then [Lost] else [];
    var rest := if ReadyThen(reg, a) then AsEvents(a.received) + lost else [];
    AskingShowsNoData(reg, a);
    DataShownAppend(AskingShows(reg, a), rest);
    DataShownAppend(AsEvents(a.received), lost);
    DataShownOfEvents(a.received);
    NoDataInEnds(a.lost);
  }

  lemma NoDataInEnds(lost: bool)
    ensures DataShown(if lost then [Lost] else []) == [] && DataShown([]) == []
  {
    var one: seq<Event> := [Lost];
    assert one[1..] == [];
  }

  lemma CommandShowsNoData(d: Driver, c: Command, a: Answer)
    ensures Process(d, c, a).events in {[], [Closed]} && DataShown(Process(d, c, a).events) == []
  {
    hide SendFrom, Adapter, Mounted, IsLocal;
    var one: seq<Event> := [Closed];
    assert one[1..] == [];
  }

  lemma CarryShowsNoData(n: Node, k: nat, a: Answer, id: Id)
    requires n.Shaped() && k <= n.workers && n.queues[k] != []
    ensures DataShown(Carry(n, k, a).PastOf(id).events) == DataShown(n.PastOf(id).events)
  {
    hide Process, LifeAfterCommand, DataShown;
    var c := n.queues[k][0];
    CommandShowsNoData(n.drivers[k], c, a);
    DataShownAppend(n.PastOf(id).events, Process(n.drivers[k], c, a).events);
  }

  lemma PollShowsReceived(n: Node, step: Step, id: Id)
    requires Inv(n) && (step.PollRead? || step.PollWrite?)
    ensures DataShown(Take(n, step).PastOf(id).events) == DataShown(n.PastOf(id).events) + ReceivedIn(n, step, id)
  {
    hide Whole, CommandsBorn, IssuedOnce, DataShown, ReadingShows, AskingShows, StatusOf, Poll, ProcessRead,
         ProcessWrite;
    var own, k, a := step.id, step.k, step.answer;
    var n' := Take(n, step);
    var before := DataShown(n.PastOf(id).events);
    assert before + [] == before;
    if k <= n.workers && Born(n, own) {
      if id != own {
        PollLeavesOthers(n, k, own, a, id);
      } else if id in n.drivers[k].remotes {
        var reg := n.drivers[k].remotes[id];
        if step.PollRead? {
          ReadShows(n, k, id, a);
          ReadingShowsData(reg, a);
          DataShownAppend(n.PastOf(id).events, ReadingShows(reg, a));
        } else {
          WriteShows(n, k, id, a);
          AskingShowsNoData(reg, a);
          DataShownAppend(n.PastOf(id).events, AskingShows(reg, a));
        }
      } else {
        StaleShowsNothing(n, k, id, a);
      }
    } else if k <= n.workers && id == own {
      UnbornIsNowhere(n, k, id);
    }
  }

  lemma PollLeavesOthers(n: Node, k: nat, own: Id, a: Answer, id: Id)
    requires n.Shaped() && k <= n.workers && id != own
    ensures Poll(n, k, own, ProcessRead(n.drivers[k], own, a)).PastOf(id) == n.PastOf(id)
    ensures Poll(n, k, own, ProcessWrite(n.drivers[k], own, a)).PastOf(id) == n.PastOf(id)
  {
    hide ProcessRead, ProcessWrite, LifeAfter;
  }

  lemma UnbornIsNowhere(n: Node, k: nat, id: Id)
    requires Inv(n) && k <= n.workers && !Born(n, id)
    ensures id !in n.drivers[k].remotes
  {
    hide CommandsBorn, IssuedOnce, EventsOk, SendsOk, BornOk, QueueOk, IsLocal;
    assert Whole(n, id);
    assert DriverOk(n, id, k);
  }

  lemma MintShowsNothing(n: Node, adapter: nat, local: bool, origin: Option<Id>, id: Id)
    requires Inv(n) && (local ==> origin.None?)
    ensures Mint(n, adapter, local, origin).PastOf(id).events == n.PastOf(id).events
  {
    hide Pack, Adapter, IsLocal, BaseValue, CommandsBorn, IssuedOnce, Whole;
    var base := if local then n.nextLocal else n.nextRemote;
    if Mounted(adapter) && base < BASE_LIMIT && id == Pack(adapter, local, base) {
      assert Whole(n, id);
      FieldsDecode(adapter, local, base);
      MintedIsFresh(n, id);
    }
  }

  lemma TakeShowsReceived(n: Node, step: Step, id: Id)
    requires Inv(n)
    ensures DataShown(Take(n, step).PastOf(id).events) == DataShown(n.PastOf(id).events) + ReceivedIn(n, step, id)
  {
    hide Whole, CommandsBorn, IssuedOnce, IsLocal, Adapter, ProcessRead, ProcessWrite, Mint, Poll, Carry, DataShown;
    if step.PollRead? || step.PollWrite? {
      PollShowsReceived(n, step, id);
    } else {
      assert DataShown(n.PastOf(id).events) + [] == DataShown(n.PastOf(id).events);
      match step
      case MintRemote(adapter) => MintShowsNothing(n, adapter, false, None, id);
      case MintLocal(adapter) => MintShowsNothing(n, adapter, true, None, id);
      case Accept(_, l) => MintShowsNothing(n, Adapter(l), false, Some(l), id);
      case ProcessNext(k, a) => if k <= n.workers && n.queues[k] != [] { CarryShowsNoData(n, k, a, id); }
      case PostConnect(_) =>
      case PostListen(_) =>
      case PostAccept(_) =>
      case UserSend(_, _) =>
      case UserClose(_) =>
    }
  }

  lemma {:induction false} RunShowsReceived(n: Node, steps: seq<Step>, id: Id)
    requires Inv(n)
    ensures n.Shaped()
    ensures DataShown(Run(n, steps).PastOf(id).events) == DataShown(n.PastOf(id).events) + ReceivedBy(n, steps, id)
    decreases steps
  {
    hide Whole, CommandsBorn, IssuedOnce, Take, DataShown, ReceivedIn;
    if steps == [] {
      assert DataShown(n.PastOf(id).events) + [] == DataShown(n.PastOf(id).events);
    } else {
      TakeShowsReceived(n, steps[0], id);
      TakeKeeps(n, steps[0]);
      TakeShaped(n, steps[0]);
      RunShowsReceived(Take(n, steps[0]), steps[1..], id);
    }
  }

  /**
   In every run, the data of the messages shown for a resource are the buffers its remote received while
   ready: every one of them, once, in order.
   */
  lemma MessagesOfEveryRun(workers: nat, steps: seq<Step>, id: Id)
    requires workers > 0
    ensures NewNode(workers).Shaped()
    ensures DataShown(Run(NewNode(workers), steps).PastOf(id).events) == ReceivedBy(NewNode(workers), steps, id)
  {
    hide Run, ReceivedBy, Inv;
    NewNodeInv(workers);
    RunShowsReceived(NewNode(workers), steps, id);
    assert NewNode(workers).PastOf(id).events == [];
    assert [] + ReceivedBy(NewNode(workers), steps, id) == ReceivedBy(NewNode(workers), steps, id);
  }

  // ---------------------------------------------------------------- commands

  /** `c` is the next command of thread `k`. */
  ghost predicate NextIs(n: Node, k: nat, c: Command) {
    Inv(n) && k <= n.workers && n.queues[k] != [] && n.queues[k][0] == c
  }

  /** A command at the head of a queue is there for a resource that was issued, and of a mounted adapter. */
  lemma NextIsBorn(n: Node, k: nat, c: Command)
    requires NextIs(n, k, c)
    ensures Born(n, c.id) && Mounted(Adapter(c.id)) && Whole(n, c.id) && DriverOk(n, c.id, k)
  {
    hide IssuedOnce, EventsOk, SendsOk, QueueOk, DriverOk, LifeOk, IsLocal, Adapter, Mounted, BaseValue;
    assert Born(n, n.queues[k][0].id);
    assert Whole(n, c.id);
  }

  predicate Held(n: Node, k: nat, id: Id)
    requires k < |n.drivers|
  {
    id in n.drivers[k].remotes || id in n.drivers[k].locals
  }

  /** The thread on which a resource lives, if it lives: a listener on the master, a remote where it routes. */
  function HomeOf(n: Node, id: Id): nat
    requires n.workers > 0
  {
    if IsLocal(id) then n.workers else id % n.workers
  }

  lemma HeldAtHome(n: Node, k: nat, id: Id)
    requires n.Shaped() && k <= n.workers && Whole(n, id) && Held(n, k, id)
    ensures k == HomeOf(n, id)
    ensures if IsLocal(id) then id in n.drivers[k].locals && id !in n.drivers[k].remotes
            else id in n.drivers[k].remotes && id !in n.drivers[k].locals
  {
    hide EventsOk, SendsOk, BornOk, QueueOk, RegisterOk, IsLocal;
    assert DriverOk(n, id, k);
  }

  /**
   A close carried out on the thread that holds the resource removes it, so that no thread holds it any more,
   and is on record; on any other thread it changes no registry and shows nothing.
   */
  lemma CloseRemoves(n: Node, k: nat, id: Id, a: Answer)
    requires NextIs(n, k, Close(id))
    ensures var n' := Take(n, ProcessNext(k, a));
            && n.Shaped() && n'.Shaped() && n'.workers == n.workers && n'.queues[k] == n.queues[k][1..]
            && (Held(n, k, id) ==>
                  && n'.PastOf(id).events == n.PastOf(id).events + [Closed]
                  && forall j | 0 <= j <= n.workers :: !Held(n', j, id))
            && (!Held(n, k, id) ==> n'.PastOf(id).events == n.PastOf(id).events && n'.drivers == n.drivers)
  {
    hide Whole, CommandsBorn, IssuedOnce, IsLocal, Adapter, Mounted, DriverOk, LifeAfterCommand;
    NextIsBorn(n, k, Close(id));
    var n' := Take(n, ProcessNext(k, a));
    if Held(n, k, id) {
      HeldAtHome(n, k, id);
      forall j | 0 <= j <= n.workers ensures !Held(n', j, id) {
        if j != k && Held(n, j, id) {
          HeldAtHome(n, j, id);
        }
      }
    } else {
      assert n.drivers[k].remotes - {id} == n.drivers[k].remotes && n.drivers[k].locals - {id} == n.drivers[k].locals;
      assert n.PastOf(id).events + [] == n.PastOf(id).events;
    }
  }

  /** The user's close goes to the thread on which the resource lives, and nowhere else. */
  lemma CloseGoesHome(n: Node, id: Id)
    requires n.Shaped() && Born(n, id)
    ensures var n' := Take(n, UserClose(id));
            && n'.Shaped() && n'.drivers == n.drivers && n'.past == n.past
            && n'.queues[HomeOf(n, id)] == n.queues[HomeOf(n, id)] + [Close(id)]
            && forall j | 0 <= j <= n.workers && j != HomeOf(n, id) :: n'.queues[j] == n.queues[j]
  {
    hide IsLocal;
  }

  /** The user's send goes to the worker the resource routes to, and is on record. */
  lemma SendGoesHome(n: Node, id: Id, data: Bytes)
    requires n.Shaped() && Born(n, id)
    ensures var n' := Take(n, UserSend(id, data));
            && n'.Shaped() && n'.drivers == n.drivers
            && n'.PastOf(id) == n.PastOf(id).(posted := n.PastOf(id).posted + [data])
            && n'.queues[id % n.workers] == n.queues[id % n.workers] + [Send(id, data)]
            && forall j | 0 <= j <= n.workers && j != id % n.workers :: n'.queues[j] == n.queues[j]
  {
  }

  /** The status of a send and what the socket took, whatever the adapter. */
  function RecordOf(id: Id, data: Bytes, a: Answer): SendRecord {
    if Adapter(id) == WS then SendRecord(data, a.wsStatus, if a.wsStatus.Sent? then |data| else 0)
    else
      var s := SendFrom(data, 0, a.writes, 1000);
      SendRecord(data, s.status, s.written)
  }

  /** A send is given to the transport exactly when its remote is registered there and ready. */
  lemma SendIsHanded(n: Node, k: nat, id: Id, data: Bytes, a: Answer)
    requires NextIs(n, k, Send(id, data))
    ensures var n' := Take(n, ProcessNext(k, a));
            var ready := id in n.drivers[k].remotes && n.drivers[k].remotes[id].ready;
            && n.Shaped() && n'.drivers == n.drivers && n'.PastOf(id).events == n.PastOf(id).events
            && n'.PastOf(id).sends == n.PastOf(id).sends + if ready then [RecordOf(id, data, a)] else []
  {
    hide Whole, CommandsBorn, IssuedOnce, IsLocal, Adapter, Mounted, LifeAfterCommand, SendFrom, Unsettled;
    NextIsBorn(n, k, Send(id, data));
    SendAtHead(n, k, Send(id, data)) by { assert AtHead(n, k, Send(id, data)); }
    assert n.PastOf(id).events + [] == n.PastOf(id).events;
    assert n.PastOf(id).sends + [] == n.PastOf(id).sends;
    if id in n.drivers[k].remotes {
      HeldRegister(n, k, id);
    }
    assert k < n.workers;
  }

  /** A connect that gets a socket hands it to the worker the resource routes to; one that does not is over. */
  lemma ConnectIsHandedOn(n: Node, k: nat, id: Id, a: Answer)
    requires NextIs(n, k, Connect(id))
    ensures var n' := Take(n, ProcessNext(k, a));
            && n.Shaped() && n'.Shaped() && n'.workers == n.workers && k == n.workers && n'.drivers == n.drivers
            && n'.queues[k] == n.queues[k][1..]
            && n'.queues[id % n.workers]
               == n.queues[id % n.workers] + (if a.socketMade then [ConnectRegister(id)] else [])
            && n'.PastOf(id).events == n.PastOf(id).events
            && n'.PastOf(id).life == if a.socketMade then Handed else Over
  {
    hide Whole, CommandsBorn, IssuedOnce, IsLocal, Adapter, Mounted;
    NextIsBorn(n, k, Connect(id));
    ClaimAtHead(n, k, Connect(id)) by { assert AtHead(n, k, Connect(id)); }
    assert n.PastOf(id).events + [] == n.PastOf(id).events;
    assert n.queues[id % n.workers] + [] == n.queues[id % n.workers];
  }

  /** A remote handed to its worker is registered there, not ready, at the beginning of its handshake. */
  lemma RemoteIsRegistered(n: Node, k: nat, c: Command, a: Answer)
    requires NextIs(n, k, c) && (c.ConnectRegister? || c.AcceptRegister?)
    ensures var n' := Take(n, ProcessNext(k, a));
            var local := if c.AcceptRegister? then Some(c.listener) else None;
            var pending := if c.AcceptRegister? then Accepting else Connecting;
            && n.Shaped() && n'.Shaped() && k == c.id % n.workers && c.id in n'.drivers[k].remotes
            && n'.drivers[k].remotes[c.id]
               == Register(local, false, if Adapter(c.id) == WS then Ws(Handshake(Some(pending))) else Tcp)
            && n'.PastOf(c.id).events == n.PastOf(c.id).events
  {
    hide Whole, CommandsBorn, IssuedOnce, IsLocal, Adapter, Mounted;
    NextIsBorn(n, k, c);
    ClaimAtHead(n, k, c) by { assert AtHead(n, k, c); }
    assert n.PastOf(c.id).events + [] == n.PastOf(c.id).events;
  }

  /** A listener is registered on the master exactly if its socket could be made. */
  lemma ListenerIsRegistered(n: Node, k: nat, id: Id, a: Answer)
    requires NextIs(n, k, Listen(id))
    ensures var n' := Take(n, ProcessNext(k, a));
            && n.Shaped() && n'.Shaped() && k == n.workers && (id in n'.drivers[k].locals <==> a.socketMade)
            && n'.PastOf(id).events == n.PastOf(id).events
  {
    hide Whole, CommandsBorn, IssuedOnce, IsLocal, Adapter, Mounted;
    NextIsBorn(n, k, Listen(id));
    ClaimAtHead(n, k, Listen(id)) by { assert AtHead(n, k, Listen(id)); }
    assert n.PastOf(id).events + [] == n.PastOf(id).events;
    RequestedIsNowhere(n, k, id);
  }

  lemma RequestedIsNowhere(n: Node, k: nat, id: Id)
    requires n.Shaped() && k <= n.workers && Whole(n, id) && n.PastOf(id).life.Requested?
    ensures !Held(n, k, id)
  {
    hide PastOk, QueueOk, RegisterOk, IsLocal;
    assert DriverOk(n, id, k);
  }

  // ---------------------------------------------------------------- users and listeners

  /** A user's connect or listen gets a new identifier of its adapter, and then goes to the master. */
  lemma RequestGoesToMaster(n: Node, id: Id)
    requires n.Shaped() && n.PastOf(id).life.Minted? && n.PastOf(id).origin.None?
    ensures var n' := Take(n, if IsLocal(id) then PostListen(id) else PostConnect(id));
            && n'.Shaped() && n'.drivers == n.drivers
            && n'.queues[n.workers] == n.queues[n.workers] + [if IsLocal(id) then Listen(id) else Connect(id)]
            && forall j | 0 <= j < n.workers :: n'.queues[j] == n.queues[j]
  {
    hide IsLocal;
  }

  lemma MintIssues(n: Node, adapter: nat, local: bool)
    requires n.Shaped() && Mounted(adapter) && (if local then n.nextLocal else n.nextRemote) < BASE_LIMIT
    ensures var n' := Take(n, if local then MintLocal(adapter) else MintRemote(adapter));
            && |n'.issued| == |n.issued| + 1 && n.issued == n'.issued[..|n.issued|]
            && var id := n'.issued[|n.issued|];
               && Adapter(id) == adapter && (IsLocal(id) <==> local)
               && BaseValue(id) == (if local then n.nextLocal else n.nextRemote)
               && n'.PastOf(id).life.Minted? && n'.PastOf(id).origin.None? && n'.PastOf(id).events == []
  {
    hide Adapter, IsLocal, BaseValue, Pack;
    FieldsDecode(adapter, local, if local then n.nextLocal else n.nextRemote);
  }

  /** A connection accepted by a listener gets a new remote identifier of the same adapter, from that listener. */
  lemma AcceptIssues(n: Node, l: Id)
    requires n.Shaped() && l in n.drivers[n.workers].locals && Mounted(Adapter(l)) && n.nextRemote < BASE_LIMIT
    ensures var n' := Take(n, Accept(n.workers, l));
            && |n'.issued| == |n.issued| + 1
            && var id := n'.issued[|n.issued|];
               && Adapter(id) == Adapter(l) && !IsLocal(id) && BaseValue(id) == n.nextRemote
               && n'.PastOf(id).life.Minted? && n'.PastOf(id).origin == Some(l)
  {
    hide Adapter, IsLocal, BaseValue, Pack;
    FieldsDecode(Adapter(l), false, n.nextRemote);
  }

  /** And is then handed to the worker it routes to. */
  lemma AcceptIsHandedOn(n: Node, id: Id)
    requires n.Shaped() && n.PastOf(id).life.Minted? && n.PastOf(id).origin.Some?
    ensures var n' := Take(n, PostAccept(id));
            && n'.Shaped() && n'.drivers == n.drivers
            && n'.queues[id % n.workers]
               == n.queues[id % n.workers] + [AcceptRegister(n.PastOf(id).origin.value, id)]
            && forall j | 0 <= j <= n.workers && j != id % n.workers :: n'.queues[j] == n.queues[j]
  {
  }
}
