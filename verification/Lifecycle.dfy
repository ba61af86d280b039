/**
 What holds of every resource in every run of a node: its events, where it is registered, what is sent.
 */
module Lifecycle {
  import opened Base
  import opened ResourceIds
  import opened Remotes
  import opened Drivers
  import opened Nodes

  // ---------------------------------------------------------------- legal histories of one resource

  /** A ready event of the right kind, then messages. */
  predicate OpenEvents(origin: Option<Id>, events: seq<Event>) {
    events != [] && events[0] == ReadyEvent(origin) && forall i | 0 < i < |events| :: events[i].Message?
  }

  /**
   Nothing; or only a failed connection, for connections the user asked for; or only a close; or a ready
   event and messages, ended by at most one disconnection or close.
   */
  predicate LegalEvents(origin: Option<Id>, events: seq<Event>) {
    || events == []
    || (events == [Connected(false)] && origin.None?)
    || events == [Closed]
    || OpenEvents(origin, events)
    || (events[|events| - 1] in {Lost, Closed} && OpenEvents(origin, events[..|events| - 1]))
  }

  predicate Block(all: seq<Bytes>, part: seq<Bytes>, start: nat) {
    start + |part| <= |all| && part == all[start..start + |part|]
  }

  // ---------------------------------------------------------------- the invariant, resource by resource

  function ClaimOf(c: Command, id: Id): seq<Command> {
    if c.id == id && !c.Send? && !c.Close? then [c] else []
  }

  function SendOf(c: Command, id: Id): seq<Bytes> {
    if c.id == id && c.Send? then [c.data] else []
  }

  /** The commands of a queue that create the resource or hand it on. */
  function Claims(queue: seq<Command>, id: Id): seq<Command> {
    if queue == [] then [] else ClaimOf(queue[0], id) + Claims(queue[1..], id)
  }

  function SendsIn(queue: seq<Command>, id: Id): seq<Bytes> {
    if queue == [] then [] else SendOf(queue[0], id) + SendsIn(queue[1..], id)
  }

  /** The one command in flight that will create or hand on the resource. */
  function InFlight(id: Id, p: Past): seq<Command> {
    if p.life.Requested? then [if IsLocal(id) then Listen(id) else Connect(id)]
    else if p.life.Handed? then [if p.origin.Some? then AcceptRegister(p.origin.value, id) else ConnectRegister(id)]
    else []
  }

  function InFlightTo(n: Node, id: Id, p: Past): nat
    requires n.workers > 0
  {
    if p.life.Requested? then n.workers else n.Route(id)
  }

  predicate LifeOk(id: Id, p: Past) {
    && p.processed <= |p.posted|
    && (IsLocal(id) ==> p.origin.None? && p.sends == [] && !p.life.Live? && !p.life.Handed?)
    && (!IsLocal(id) ==> !p.life.Listening?)
    && (p.life.Requested? ==> p.origin.None?)
    && (p.life.Unborn? ==> p == UNBORN)
  }

  predicate EventsOk(p: Past) {
    if p.life == Live(true) then OpenEvents(p.origin, p.events)
    else if p.life.Over? then LegalEvents(p.origin, p.events)
    else p.events == []
  }

  ghost predicate SendsOk(p: Past) {
    && p.processed <= |p.posted|
    && |HandedOver(p.sends)| <= p.processed
    && (p.life == Live(true) ==> Block(p.posted, HandedOver(p.sends), p.processed - |HandedOver(p.sends)|))
    && (p.life.Over? ==>
          exists start: nat ::
            start + |HandedOver(p.sends)| <= p.processed && Block(p.posted, HandedOver(p.sends), start))
    && (!p.life.Over? && p.life != Live(true) ==> p.sends == [])
    && Faithful(p.sends)
  }

  ghost predicate BornOk(n: Node, id: Id) {
    !n.PastOf(id).life.Unborn? ==>
      && Mounted(Adapter(id)) && id < RESERVED
      && 1 <= BaseValue(id) < (if IsLocal(id) then n.nextLocal else n.nextRemote)
  }

  predicate RegisterOk(id: Id, p: Past, reg: Register) {
    && reg.local == p.origin && p.life == Live(reg.ready)
    && (reg.resource.Ws? <==> Adapter(id) == WS)
    && (if reg.ready then Usable(reg.resource) else Unsettled(reg.resource))
  }

  ghost predicate QueueOk(n: Node, id: Id, k: nat)
    requires n.Shaped() && k <= n.workers
  {
    var p := n.PastOf(id);
    && Claims(n.queues[k], id) == (if k == InFlightTo(n, id, p) then InFlight(id, p) else [])
    && SendsIn(n.queues[k], id)
       == (if k == n.Route(id) && p.processed <= |p.posted| then p.posted[p.processed..] else [])
  }

  ghost predicate DriverOk(n: Node, id: Id, k: nat)
    requires n.Shaped() && k <= n.workers
  {
    var p := n.PastOf(id);
    && (id in n.drivers[k].remotes <==> p.life.Live? && k == n.Route(id))
    && (id in n.drivers[k].remotes ==> RegisterOk(id, p, n.drivers[k].remotes[id]))
    && (id in n.drivers[k].locals <==> p.life.Listening? && k == n.workers)
  }

  ghost predicate PastOk(n: Node, id: Id) {
    var p := n.PastOf(id);
    LifeOk(id, p) && EventsOk(p) && SendsOk(p) && BornOk(n, id)
  }

  ghost predicate Whole(n: Node, id: Id)
    requires n.Shaped()
  {
    && PastOk(n, id)
    && forall k | 0 <= k <= n.workers :: QueueOk(n, id, k) && DriverOk(n, id, k)
  }

  ghost predicate Born(n: Node, id: Id) {
    !n.PastOf(id).life.Unborn?
  }

  ghost predicate CommandsBorn(n: Node) {
    forall k, i | 0 <= k < |n.queues| && 0 <= i < |n.queues[k]| :: Born(n, n.queues[k][i].id)
  }

  ghost predicate IssuedOnce(n: Node) {
    && (forall i | 0 <= i < |n.issued| :: Born(n, n.issued[i]))
    && (forall i, j | 0 <= i < j < |n.issued| :: n.issued[i] != n.issued[j])
  }

  ghost predicate Inv(n: Node) {
    && n.Shaped() && !n.panicked
    && 1 <= n.nextRemote && 1 <= n.nextLocal
    && (forall id: Id :: Whole(n, id))
    && CommandsBorn(n) && IssuedOnce(n)
  }

  // ---------------------------------------------------------------- steps that do not concern a resource

  /** As far as `id` goes, thread `k` is as before. */
  ghost predicate SameAt(n: Node, n': Node, id: Id, k: nat)
    requires n.Shaped() && n'.Shaped() && n'.workers == n.workers && k <= n.workers
  {
    var d, d' := n.drivers[k], n'.drivers[k];
    && Claims(n'.queues[k], id) == Claims(n.queues[k], id) && SendsIn(n'.queues[k], id) == SendsIn(n.queues[k], id)
    && (id in d'.remotes <==> id in d.remotes) && (id in d.remotes ==> d'.remotes[id] == d.remotes[id])
    && (id in d'.locals <==> id in d.locals)
  }

  lemma Undisturbed(n: Node, n': Node, id: Id)
    requires n.Shaped() && n'.Shaped() && n'.workers == n.workers && Whole(n, id)
    requires n'.PastOf(id) == n.PastOf(id) && n.nextRemote <= n'.nextRemote && n.nextLocal <= n'.nextLocal
    requires forall k | 0 <= k <= n.workers :: SameAt(n, n', id, k)
    ensures Whole(n', id)
  {
    hide LifeOk, EventsOk, SendsOk, RegisterOk, IsLocal, Adapter, Mounted, BaseValue, InFlight, Claims, SendsIn;
    forall k | 0 <= k <= n.workers ensures QueueOk(n', id, k) && DriverOk(n', id, k) {
      assert QueueOk(n, id, k) && DriverOk(n, id, k) && SameAt(n, n', id, k);
    }
  }

  /** Nothing of what is queued or registered changes. */
  lemma UndisturbedThreads(n: Node, n': Node, id: Id)
    requires n.Shaped() && Whole(n, id)
    requires n'.workers == n.workers && n'.queues == n.queues && n'.drivers == n.drivers
    requires n'.PastOf(id) == n.PastOf(id) && n.nextRemote <= n'.nextRemote && n.nextLocal <= n'.nextLocal
    ensures Whole(n', id)
  {
    hide Whole, Claims, SendsIn;
    Undisturbed(n, n', id);
  }

  // ---------------------------------------------------------------- queues

  lemma {:induction false} ClaimsSnoc(q: seq<Command>, c: Command, id: Id)
    ensures Claims(q + [c], id) == Claims(q, id) + ClaimOf(c, id)
    ensures SendsIn(q + [c], id) == SendsIn(q, id) + SendOf(c, id)
  {
    hide ClaimOf, SendOf;
    if q == [] {
      assert (q + [c])[0] == c && (q + [c])[1..] == [];
    } else {
      assert (q + [c])[0] == q[0] && (q + [c])[1..] == q[1..] + [c];
      ClaimsSnoc(q[1..], c, id);
    }
  }

  // ---------------------------------------------------------------- minting

  lemma MintKeeps(n: Node, adapter: nat, local: bool, origin: Option<Id>)
    requires Inv(n) && (local ==> origin.None?)
    ensures Inv(Mint(n, adapter, local, origin))
  {
    hide Whole, Pack, Adapter, IsLocal, BaseValue;
    var base := if local then n.nextLocal else n.nextRemote;
    if Mounted(adapter) && base < BASE_LIMIT {
      var newId := Pack(adapter, local, base);
      var n' := Mint(n, adapter, local, origin);
      FieldsDecode(adapter, local, base);
      MintedIsFresh(n, newId);
      forall id: Id ensures Whole(n', id) {
        assert Whole(n, id);
        if id == newId {
          MintedWhole(n, n', id);
        } else {
          UndisturbedThreads(n, n', id);
        }
      }
      MintedBorn(n, n', newId);
    }
  }

  lemma MintedIsFresh(n: Node, id: Id)
    requires n.Shaped() && Whole(n, id)
    requires BaseValue(id) >= if IsLocal(id) then n.nextLocal else n.nextRemote
    ensures n.PastOf(id) == UNBORN
  {
    hide IsLocal, BaseValue, Adapter, EventsOk, SendsOk;
  }

  lemma MintedWhole(n: Node, n': Node, id: Id)
    requires n.Shaped() && Whole(n, id) && n.PastOf(id) == UNBORN
    requires n'.workers == n.workers && n'.queues == n.queues && n'.drivers == n.drivers
    requires var p := n'.PastOf(id);
             p == UNBORN.(life := Minted, origin := p.origin) && (IsLocal(id) ==> p.origin.None?)
    requires BornOk(n', id)
    ensures Whole(n', id)
  {
    hide IsLocal, BaseValue, Adapter, Mounted, Claims, SendsIn, RegisterOk, BornOk;
    forall k | 0 <= k <= n.workers ensures QueueOk(n', id, k) && DriverOk(n', id, k) {
      assert QueueOk(n, id, k) && DriverOk(n, id, k);
    }
  }

  lemma MintedBorn(n: Node, n': Node, id: Id)
    requires n.Shaped() && CommandsBorn(n) && IssuedOnce(n) && !Born(n, id)
    requires n'.queues == n.queues && n'.issued == n.issued + [id] && Born(n', id)
    requires forall i: Id | i != id :: n'.PastOf(i) == n.PastOf(i)
    ensures CommandsBorn(n') && IssuedOnce(n')
  {
    forall i | Born(n, i) ensures Born(n', i) {
    }
  }

  // ---------------------------------------------------------------- posting

  /** `n'` is `n` with a new past for `id` and a command for it at the end of queue `k`. */
  ghost predicate Posted(n: Node, n': Node, id: Id, k: nat, command: Command) {
    && n.Shaped() && k <= n.workers && command.id == id
    && n' == Post(SetPast(n, id, n'.PastOf(id)), k, command)
  }

  lemma PostOthers(n: Node, n': Node, own: Id, k: nat, command: Command, id: Id)
    requires Posted(n, n', own, k, command) && id != own && Whole(n, id)
    ensures Whole(n', id)
  {
    hide Whole, Claims, SendsIn;
    ClaimsSnoc(n.queues[k], command, id);
    Undisturbed(n, n', id);
  }

  lemma PostBorn(n: Node, n': Node, id: Id, k: nat, command: Command)
    requires Posted(n, n', id, k, command) && Born(n, id) && Born(n', id)
    requires CommandsBorn(n) && IssuedOnce(n)
    ensures CommandsBorn(n') && IssuedOnce(n')
  {
    forall i: Id | Born(n, i) ensures Born(n', i) {
    }
    forall j, i | 0 <= j < |n'.queues| && 0 <= i < |n'.queues[j]| ensures Born(n', n'.queues[j][i].id) {
      assert (j != k || i < |n.queues[j]|) ==> n'.queues[j][i] == n.queues[j][i];
    }
  }

  lemma PostKeeps(n: Node, n': Node, id: Id, k: nat, command: Command)
    requires Inv(n) && Posted(n, n', id, k, command) && Born(n, id) && Born(n', id) && Whole(n', id)
    ensures Inv(n')
  {
    hide Whole, CommandsBorn, IssuedOnce, Born;
    PostBorn(n, n', id, k, command);
    forall i: Id ensures Whole(n', i) {
      assert Whole(n, i);
      if i != id {
        PostOthers(n, n', id, k, command, i);
      }
    }
  }

  /** A minted resource sets out: its one command is queued where it belongs. */
  lemma PostMintedKeeps(n: Node, id: Id, k: nat, command: Command, life: Life)
    requires Inv(n) && n.PastOf(id).life.Minted?
    requires var p' := n.PastOf(id).(life := life);
             && (life.Requested? || life.Handed?) && LifeOk(id, p')
             && k == InFlightTo(n, id, p') && [command] == InFlight(id, p')
    ensures Inv(PostMinted(n, id, k, command, life))
  {
    var n' := PostMinted(n, id, k, command, life);
    PostMintedOwn(n, n', id, k, command);
    hide Whole, CommandsBorn, IssuedOnce, LifeOk;
    PostKeeps(n, n', id, k, command);
  }

  lemma PostMintedOwn(n: Node, n': Node, id: Id, k: nat, command: Command)
    requires Posted(n, n', id, k, command) && Whole(n, id) && n.PastOf(id).life.Minted?
    requires n'.PastOf(id) == n.PastOf(id).(life := n'.PastOf(id).life)
    requires var p' := n'.PastOf(id);
             && (p'.life.Requested? || p'.life.Handed?) && LifeOk(id, p')
             && k == InFlightTo(n, id, p') && [command] == InFlight(id, p')
    ensures Whole(n', id)
  {
    hide IsLocal, BaseValue, Adapter, Mounted, QueueOk, RegisterOk;
    forall j | 0 <= j <= n.workers ensures QueueOk(n', id, j) && DriverOk(n', id, j) {
      PostMintedQueue(n, n', id, k, command, j);
      assert DriverOk(n, id, j);
    }
  }

  lemma PostMintedQueue(n: Node, n': Node, id: Id, k: nat, command: Command, j: nat)
    requires Posted(n, n', id, k, command) && Whole(n, id) && n.PastOf(id).life.Minted? && j <= n.workers
    requires n'.PastOf(id) == n.PastOf(id).(life := n'.PastOf(id).life)
    requires var p' := n'.PastOf(id);
             && (p'.life.Requested? || p'.life.Handed?)
             && k == InFlightTo(n, id, p') && [command] == InFlight(id, p')
    ensures QueueOk(n', id, j)
  {
    hide IsLocal, Claims, SendsIn, PastOk, DriverOk;
    assert QueueOk(n, id, j);
    ClaimsSnoc(n.queues[k], command, id);
  }

  lemma UserSendKeeps(n: Node, id: Id, data: Bytes)
    requires Inv(n) && Born(n, id)
    ensures Inv(Take(n, UserSend(id, data)))
  {
    hide CommandsBorn, IssuedOnce, IsLocal;
    var p := n.PastOf(id);
    var n' := Take(n, UserSend(id, data));
    assert Whole(n, id);
    UserSendOwn(n, n', id, data);
    hide Whole;
    PostKeeps(n, n', id, n.Route(id), Send(id, data));
  }

  lemma UserSendOwn(n: Node, n': Node, id: Id, data: Bytes)
    requires n.Shaped() && Posted(n, n', id, n.Route(id), Send(id, data)) && Whole(n, id) && Born(n, id)
    requires n'.PastOf(id) == n.PastOf(id).(posted := n.PastOf(id).posted + [data])
    ensures Whole(n', id)
  {
    hide IsLocal, BaseValue, Adapter, Mounted, QueueOk, Usable, Unsettled, SendsOk, LegalEvents, OpenEvents;
    SendsOkGrows(n.PastOf(id), data);
    forall j | 0 <= j <= n.workers ensures QueueOk(n', id, j) && DriverOk(n', id, j) {
      UserSendQueue(n, n', id, data, j);
      assert DriverOk(n, id, j);
    }
  }

  lemma UserSendQueue(n: Node, n': Node, id: Id, data: Bytes, j: nat)
    requires n.Shaped() && Posted(n, n', id, n.Route(id), Send(id, data)) && Whole(n, id) && j <= n.workers
    requires n'.PastOf(id) == n.PastOf(id).(posted := n.PastOf(id).posted + [data])
    ensures QueueOk(n', id, j)
  {
    hide IsLocal, Claims, SendsIn, EventsOk, SendsOk, BornOk, DriverOk;
    var p, p' := n.PastOf(id), n'.PastOf(id);
    assert QueueOk(n, id, j);
    ClaimsSnoc(n.queues[n.Route(id)], Send(id, data), id);
    assert p'.posted[p'.processed..] == p.posted[p.processed..] + [data];
  }

  lemma BlockGrows(all: seq<Bytes>, data: Bytes, part: seq<Bytes>, start: nat)
    requires Block(all, part, start)
    ensures Block(all + [data], part, start)
  {
    var more := all + [data];
    forall i | 0 <= i < |part| ensures more[start..start + |part|][i] == part[i] {
      assert more[start + i] == all[start + i] == all[start..start + |part|][i];
    }
    assert more[start..start + |part|] == part;
  }

  lemma SendsOkGrows(p: Past, data: Bytes)
    requires SendsOk(p)
    ensures SendsOk(p.(posted := p.posted + [data]))
  {
    hide Faithful, HandedOver, Block;
    var handed := HandedOver(p.sends);
    if p.life == Live(true) {
      BlockGrows(p.posted, data, handed, p.processed - |handed|);
    } else if p.life.Over? {
      var start: nat :| start + |handed| <= p.processed && Block(p.posted, handed, start);
      BlockGrows(p.posted, data, handed, start);
    }
  }

  lemma UserCloseKeeps(n: Node, id: Id)
    requires Inv(n) && Born(n, id)
    ensures Inv(Take(n, UserClose(id)))
  {
    hide CommandsBorn, IssuedOnce, IsLocal;
    var k := if IsLocal(id) then n.workers else n.Route(id);
    var n', n'' := Take(n, UserClose(id)), Post(SetPast(n, id, n.PastOf(id)), k, Close(id));
    assert Whole(n, id);
    UserCloseOwn(n, n'', id, k);
    hide Whole;
    PostKeeps(n, n'', id, k, Close(id));
    SamePasts(n'', n');
  }

  lemma UserCloseOwn(n: Node, n': Node, id: Id, k: nat)
    requires Posted(n, n', id, k, Close(id)) && Whole(n, id) && n'.PastOf(id) == n.PastOf(id)
    ensures Whole(n', id)
  {
    hide Claims, SendsIn, PastOk;
    ClaimsSnoc(n.queues[k], Close(id), id);
    hide Whole;
    Undisturbed(n, n', id);
  }

  /** Only what `PastOf` says of the pasts matters. */
  lemma SamePasts(n: Node, n': Node)
    requires Inv(n) && n' == n.(past := n'.past) && forall id: Id :: n'.PastOf(id) == n.PastOf(id)
    ensures Inv(n')
  {
    hide Whole;
    forall id: Id ensures Whole(n', id) {
      assert Whole(n, id);
      UndisturbedThreads(n, n', id);
    }
  }

  // ---------------------------------------------------------------- poll events

  predicate OnlyTouches(d: Driver, d': Driver, own: Id) {
    && d'.remotes - {own} == d.remotes - {own}
    && d'.locals - {own} == d.locals - {own}
  }

  lemma OthersUntouched(d: Driver, d': Driver, own: Id, id: Id)
    requires OnlyTouches(d, d', own) && id != own
    ensures id in d'.remotes <==> id in d.remotes
    ensures id in d.remotes ==> d'.remotes[id] == d.remotes[id]
    ensures id in d'.locals <==> id in d.locals
  {
    assert id in d'.remotes <==> id in d'.remotes - {own};
    assert id in d.remotes <==> id in d.remotes - {own};
    assert id in d.remotes - {own} ==> (d.remotes - {own})[id] == d.remotes[id];
    assert id in d'.remotes - {own} ==> (d'.remotes - {own})[id] == d'.remotes[id];
    assert id in d'.locals <==> id in d'.locals - {own};
    assert id in d.locals <==> id in d.locals - {own};
  }

  function PastAfterPoll(p: Past, d: Driver, id: Id, e: Effect): Past {
    p.(life := LifeAfter(p.life, d, e.driver, id), events := p.events + e.events)
  }

  /** A driver call on a registered remote goes well and leads from legal to legal. */
  ghost predicate PollOk(d: Driver, id: Id, p: Past, e: Effect) {
    && e.ok && OnlyTouches(d, e.driver, id) && e.driver.locals == d.locals
    && EventsOk(PastAfterPoll(p, d, id, e))
    && (id in e.driver.remotes ==> RegisterOk(id, PastAfterPoll(p, d, id, e), e.driver.remotes[id]))
  }

  function Settled(s: Resolved): Effect {
    Effect(s.driver, s.events, [], None, s.ok)
  }

  lemma SettleOk(d: Driver, id: Id, a: Answer, p: Past)
    requires id in d.remotes && RegisterOk(id, p, d.remotes[id]) && EventsOk(p)
    ensures var s := Settle(d, id, a);
            && PollOk(d, id, p, Settled(s))
            && (s.reg.ready ==> id in s.driver.remotes && s.driver.remotes[id] == s.reg)
  {
    hide Adapter, PendingCall;
    assert p.events + [] == p.events;
    var reg := d.remotes[id];
    if !reg.ready {
      PendingSettles(reg.resource, a);
    }
  }

  lemma ReadFromRemoteOk(d: Driver, id: Id, a: Answer, p: Past)
    requires id in d.remotes && d.remotes[id].ready && RegisterOk(id, p, d.remotes[id]) && EventsOk(p)
    ensures PollOk(d, id, p, ReadFromRemote(d, id, d.remotes[id], a))
  {
    hide Adapter;
    var e := ReadFromRemote(d, id, d.remotes[id], a);
    var events := p.events + Messages(a.received);
    assert OpenEvents(p.origin, events);
    if a.lost {
      assert e.events == Messages(a.received) + [Lost];
      assert p.events + e.events == p.events + Messages(a.received) + [Lost] == events + [Lost];
      assert (events + [Lost])[..|events|] == events;
    }
  }

  /** Two calls in a row. */
  lemma PollOkThen(d: Driver, id: Id, p: Past, s: Resolved, r: Effect)
    requires id in d.remotes && id in s.driver.remotes
    requires PollOk(d, id, p, Settled(s)) && PollOk(s.driver, id, PastAfterPoll(p, d, id, Settled(s)), r)
    ensures PollOk(d, id, p, r.(events := s.events + r.events))
  {
    hide EventsOk, RegisterOk;
    var e := r.(events := s.events + r.events);
    assert p.events + (s.events + r.events) == p.events + s.events + r.events;
    assert PastAfterPoll(p, d, id, e) == PastAfterPoll(PastAfterPoll(p, d, id, Settled(s)), s.driver, id, r);
  }

  lemma ProcessReadOk(d: Driver, id: Id, a: Answer, p: Past)
    requires id in d.remotes && RegisterOk(id, p, d.remotes[id]) && EventsOk(p)
    requires Mounted(Adapter(id)) && !IsLocal(id)
    ensures PollOk(d, id, p, ProcessRead(d, id, a)) && PollOk(d, id, p, ProcessWrite(d, id, a))
  {
    hide Adapter, Mounted, IsLocal, Settle, ReadFromRemote, EventsOk;
    var s := Settle(d, id, a);
    SettleOk(d, id, a, p);
    if s.reg.ready {
      ReadFromRemoteOk(s.driver, id, a, PastAfterPoll(p, d, id, Settled(s)));
      PollOkThen(d, id, p, s, ReadFromRemote(s.driver, id, s.reg, a));
    }
  }

  lemma SendsOkMoves(p: Past, p': Past)
    requires SendsOk(p) && p.life.Live? && (p'.life.Live? || p'.life.Over?)
    requires p'.posted == p.posted && p'.processed == p.processed && p'.sends == p.sends
    requires p'.life == Live(false) ==> p.life == Live(false)
    ensures SendsOk(p')
  {
    hide Faithful;
    var m := |HandedOver(p.sends)|;
    assert Block(p.posted, HandedOver(p.sends), p.processed - m);
  }

  lemma PollOwn(n: Node, k: nat, id: Id, e: Effect)
    requires n.Shaped() && k <= n.workers && Whole(n, id) && id in n.drivers[k].remotes
    requires PollOk(n.drivers[k], id, n.PastOf(id), e)
    requires n.drivers[k].remotes[id].ready && id in e.driver.remotes ==> e.driver.remotes[id].ready
    ensures Whole(Poll(n, k, id, e), id)
  {
    hide IsLocal, BaseValue, Adapter, Mounted, Claims, SendsIn, SendsOk, EventsOk, OnlyTouches, Usable, Unsettled;
    var n' := Poll(n, k, id, e);
    assert DriverOk(n, id, k);
    SendsOkMoves(n.PastOf(id), n'.PastOf(id));
    forall j | 0 <= j <= n.workers ensures QueueOk(n', id, j) && DriverOk(n', id, j) {
      assert QueueOk(n, id, j) && DriverOk(n, id, j);
    }
  }

  lemma PollOthers(n: Node, k: nat, own: Id, e: Effect, id: Id)
    requires n.Shaped() && k <= n.workers && Whole(n, id) && id != own && OnlyTouches(n.drivers[k], e.driver, own)
    ensures Whole(Poll(n, k, own, e), id)
  {
    hide Whole, Claims, SendsIn, OnlyTouches, LifeAfter;
    OthersUntouched(n.drivers[k], e.driver, own, id);
    Undisturbed(n, Poll(n, k, own, e), id);
  }

  /** Threads and pasts may change, but no resource is unborn again and no command is new. */
  lemma StillBorn(n: Node, n': Node)
    requires n.Shaped() && CommandsBorn(n) && IssuedOnce(n)
    requires n'.issued == n.issued && |n'.queues| == |n.queues|
    requires forall id: Id :: Born(n, id) ==> Born(n', id)
    requires forall k | 0 <= k < |n.queues| ::
               n'.queues[k] == n.queues[k] || (n.queues[k] != [] && n'.queues[k] == n.queues[k][1..])
    ensures CommandsBorn(n') && IssuedOnce(n')
  {
    hide Born;
    forall k, i | 0 <= k < |n'.queues| && 0 <= i < |n'.queues[k]| ensures Born(n', n'.queues[k][i].id) {
      var j := if n'.queues[k] == n.queues[k] then i else i + 1;
      assert n'.queues[k][i] == n.queues[k][j];
    }
  }

  lemma PollKeeps(n: Node, k: nat, id: Id, e: Effect)
    requires Inv(n) && k <= n.workers && id in n.drivers[k].remotes
    requires PollOk(n.drivers[k], id, n.PastOf(id), e)
    requires n.drivers[k].remotes[id].ready && id in e.driver.remotes ==> e.driver.remotes[id].ready
    ensures Inv(Poll(n, k, id, e))
  {
    hide Whole, OnlyTouches, EventsOk, RegisterOk, CommandsBorn, IssuedOnce;
    var n' := Poll(n, k, id, e);
    forall i: Id ensures Whole(n', i) {
      assert Whole(n, i);
      if i == id {
        PollOwn(n, k, id, e);
      } else {
        PollOthers(n, k, id, e, i);
      }
    }
    assert Born(n', id);
    StillBorn(n, n');
  }

  lemma ReadyStays(d: Driver, id: Id, a: Answer)
    requires id in d.remotes && d.remotes[id].ready
    ensures id in ProcessRead(d, id, a).driver.remotes ==> ProcessRead(d, id, a).driver.remotes[id].ready
    ensures id in ProcessWrite(d, id, a).driver.remotes ==> ProcessWrite(d, id, a).driver.remotes[id].ready
  {
    hide IsLocal, Adapter;
  }

  lemma PollQuiet(n: Node, k: nat, id: Id)
    requires Inv(n) && k <= n.workers && id !in n.drivers[k].remotes
    ensures Inv(Poll(n, k, id, Quiet(n.drivers[k])))
  {
    hide Whole, CommandsBorn, IssuedOnce;
    var n' := Poll(n, k, id, Quiet(n.drivers[k]));
    assert n.PastOf(id).events + [] == n.PastOf(id).events;
    assert n'.drivers == n.drivers;
    SamePasts(n, n');
  }

  lemma PollStepKeeps(n: Node, k: nat, id: Id, a: Answer)
    requires Inv(n) && k <= n.workers && Born(n, id)
    ensures Inv(Poll(n, k, id, ProcessRead(n.drivers[k], id, a)))
    ensures Inv(Poll(n, k, id, ProcessWrite(n.drivers[k], id, a)))
  {
    hide Adapter, Mounted, IsLocal, EventsOk, CommandsBorn, IssuedOnce, Poll, Settle, ReadFromRemote;
    var d := n.drivers[k];
    assert Whole(n, id) && DriverOk(n, id, k);
    if id in d.remotes {
      assert !IsLocal(id);
      ProcessReadOk(d, id, a, n.PastOf(id));
      if d.remotes[id].ready {
        ReadyStays(d, id, a);
      }
      hide Whole;
      PollKeeps(n, k, id, ProcessRead(d, id, a));
      PollKeeps(n, k, id, ProcessWrite(d, id, a));
    } else {
      hide Whole;
      PollQuiet(n, k, id);
    }
  }

  // ---------------------------------------------------------------- commands

  predicate IsClaim(c: Command) {
    !c.Send? && !c.Close?
  }

  lemma QueueHead(q: seq<Command>, id: Id)
    requires q != []
    ensures Claims(q, id) == ClaimOf(q[0], id) + Claims(q[1..], id)
    ensures SendsIn(q, id) == SendOf(q[0], id) + SendsIn(q[1..], id)
  {
  }

  ghost predicate AtHead(n: Node, k: nat, c: Command) {
    n.Shaped() && k <= n.workers && n.queues[k] != [] && c == n.queues[k][0] && Whole(n, c.id)
  }

  /** A claim at the head of a queue is the one command in flight for its resource. */
  lemma ClaimAtHead(n: Node, k: nat, c: Command)
    requires AtHead(n, k, c) && IsClaim(c)
    ensures var id, p, tail := c.id, n.PastOf(c.id), n.queues[k][1..];
            && k == InFlightTo(n, id, p) && [c] == InFlight(id, p)
            && Claims(tail, id) == [] && SendsIn(tail, id) == SendsIn(n.queues[k], id)
  {
    hide PastOk, DriverOk, IsLocal, Claims, SendsIn;
    var id, p, q := c.id, n.PastOf(c.id), n.queues[k];
    assert QueueOk(n, id, k);
    QueueHead(q, id);
    assert Claims(q, id)[0] == c;
    assert SendOf(c, id) == [];
  }

  /** A send at the head of a queue is the next of those posted. */
  lemma SendAtHead(n: Node, k: nat, c: Command)
    requires AtHead(n, k, c) && c.Send?
    ensures var id, p, tail := c.id, n.PastOf(c.id), n.queues[k][1..];
            && k == n.Route(id) && p.processed < |p.posted| && c.data == p.posted[p.processed]
            && SendsIn(tail, id) == p.posted[p.processed + 1..] && Claims(tail, id) == Claims(n.queues[k], id)
  {
    hide PastOk, DriverOk, IsLocal, Claims, SendsIn, InFlight;
    var id, p, q := c.id, n.PastOf(c.id), n.queues[k];
    assert QueueOk(n, id, k);
    QueueHead(q, id);
    assert SendsIn(q, id)[0] == c.data && SendsIn(q, id)[1..] == SendsIn(q[1..], id);
    assert p.posted[p.processed..][0] == p.posted[p.processed];
    assert p.posted[p.processed..][1..] == p.posted[p.processed + 1..];
    assert ClaimOf(c, id) == [];
  }

  /** What the first command of a queue says about its resource. */
  lemma HeadFacts(n: Node, k: nat, c: Command)
    requires AtHead(n, k, c)
    ensures var id, p, tail := c.id, n.PastOf(c.id), n.queues[k][1..];
            if IsClaim(c) then k == InFlightTo(n, id, p) && [c] == InFlight(id, p) && Claims(tail, id) == []
            else Claims(tail, id) == Claims(n.queues[k], id)
    ensures var id, p, tail := c.id, n.PastOf(c.id), n.queues[k][1..];
            if c.Send? then
              k == n.Route(id) && p.processed < |p.posted| && c.data == p.posted[p.processed]
              && SendsIn(tail, id) == p.posted[p.processed + 1..]
            else SendsIn(tail, id) == SendsIn(n.queues[k], id)
  {
    hide Whole, InFlight, InFlightTo, Claims, SendsIn;
    if IsClaim(c) {
      ClaimAtHead(n, k, c);
    } else if c.Send? {
      SendAtHead(n, k, c);
    } else {
      QueueHead(n.queues[k], c.id);
    }
  }

  /** Away from the resource the command names, nothing changes. */
  lemma PoppedOthers(n: Node, k: nat, e: Effect, id: Id)
    requires n.Shaped() && k <= n.workers && n.queues[k] != [] && Whole(n, id) && id != n.queues[k][0].id
    requires OnlyTouches(n.drivers[k], e.driver, n.queues[k][0].id)
    ensures Whole(Popped(n, k, e), id)
  {
    hide Whole, OnlyTouches, PastAfterCommand;
    OthersUntouched(n.drivers[k], e.driver, n.queues[k][0].id, id);
    Undisturbed(n, Popped(n, k, e), id);
  }

  /** What a command at the head of queue `k` may do to where its resource stands. */
  predicate Moves(n: Node, k: nat, c: Command, p: Past, p': Past)
    requires n.workers > 0
  {
    && InFlight(c.id, p') == (if IsClaim(c) then [] else InFlight(c.id, p))
    && (InFlight(c.id, p') != [] ==> p'.life == p.life)
    && (k != n.Route(c.id) && (p'.life.Live? || p.life.Live?) ==> p'.life == p.life)
    && (k != n.workers && (p'.life.Listening? || p.life.Listening?) ==> p'.life == p.life)
  }

  lemma PoppedQueue(n: Node, k: nat, c: Command, e: Effect, j: nat)
    requires AtHead(n, k, c) && j <= n.workers && Moves(n, k, c, n.PastOf(c.id), Popped(n, k, e).PastOf(c.id))
    ensures QueueOk(Popped(n, k, e), c.id, j)
  {
    hide PastOk, DriverOk, IsLocal, Claims, SendsIn, LifeAfterCommand, InFlight;
    HeadFacts(n, k, c);
    assert QueueOk(n, c.id, j);
  }

  lemma PoppedDriver(n: Node, k: nat, c: Command, e: Effect, j: nat)
    requires AtHead(n, k, c) && j <= n.workers && j != k
    requires Moves(n, k, c, n.PastOf(c.id), Popped(n, k, e).PastOf(c.id))
    ensures DriverOk(Popped(n, k, e), c.id, j)
  {
    hide PastOk, QueueOk, IsLocal, Usable, Unsettled, Adapter, LifeAfterCommand, InFlight;
    assert DriverOk(n, c.id, j);
  }

  /**
   The own resource: its new past is fit, the thread holds it as that past says, and a command that moves
   the resource on leaves none in flight.
   */
  lemma PoppedOwn(n: Node, k: nat, e: Effect)
    requires n.Shaped() && k <= n.workers && n.queues[k] != [] && Whole(n, n.queues[k][0].id)
    requires var c := n.queues[k][0];
             var n' := Popped(n, k, e);
             && PastOk(n', c.id) && DriverOk(n', c.id, k)
             && Moves(n, k, c, n.PastOf(c.id), n'.PastOf(c.id))
    ensures Whole(Popped(n, k, e), n.queues[k][0].id)
  {
    hide PastOk, QueueOk, DriverOk, Moves, PastAfterCommand;
    var n', id := Popped(n, k, e), n.queues[k][0].id;
    forall j | 0 <= j <= n.workers ensures QueueOk(n', id, j) && DriverOk(n', id, j) {
      PoppedQueue(n, k, n.queues[k][0], e, j);
      if j != k {
        PoppedDriver(n, k, n.queues[k][0], e, j);
      }
    }
  }

  /** `c`, at the head of queue `k`, is carried out with effect `e`. */
  ghost predicate Carried(n: Node, k: nat, c: Command, e: Effect) {
    && n.Shaped() && k <= n.workers && n.queues[k] != [] && c == n.queues[k][0]
    && Whole(n, c.id) && Born(n, c.id)
    && exists a :: e == Process(n.drivers[k], c, a)
  }

  lemma NotReadySends(p: Past, p': Past)
    requires SendsOk(p) && p.life.Handed? && p' == p.(life := Live(false))
    ensures SendsOk(p')
  {
  }

  lemma RegisterEffect(d: Driver, c: Command, e: Effect, a: Answer, p: Past)
    requires (c.ConnectRegister? || c.AcceptRegister?) && Mounted(Adapter(c.id)) && e == Process(d, c, a)
    requires p.life.Handed? && [c] == InFlight(c.id, p)
    ensures e.ok && e.events == [] && e.sends == [] && e.driver.locals == d.locals
    ensures OnlyTouches(d, e.driver, c.id)
    ensures c.id in e.driver.remotes && RegisterOk(c.id, p.(life := Live(false)), e.driver.remotes[c.id])
  {
    hide Adapter, IsLocal;
  }

  lemma RegisterOwn(n: Node, k: nat, c: Command, e: Effect)
    requires Carried(n, k, c, e) && (c.ConnectRegister? || c.AcceptRegister?)
    ensures e.ok && OnlyTouches(n.drivers[k], e.driver, c.id) && Whole(Popped(n, k, e), c.id)
  {
    hide IsLocal, BaseValue, Adapter, Mounted, Claims, SendsIn, EventsOk, SendsOk, Moves, QueueOk, Process,
         RegisterOk, OnlyTouches;
    var n', id := Popped(n, k, e), c.id;
    HeadFacts(n, k, c);
    WholeLife(n, id);
    assert DriverOk(n, id, k);
    var p, p' := n.PastOf(id), n'.PastOf(id);
    assert p.life.Handed? && !IsLocal(id);
    var a :| e == Process(n.drivers[k], c, a);
    RegisterEffect(n.drivers[k], c, e, a, p);
    assert p' == p.(life := Live(false));
    NotReadySends(p, p');
    assert EventsOk(p') by { NotReadyEvents(p, p'); }
    HandedMoves(n, k, c, p);
    PoppedOwn(n, k, e);
  }

  lemma NotReadyEvents(p: Past, p': Past)
    requires EventsOk(p) && p.life.Handed? && p' == p.(life := Live(false))
    ensures EventsOk(p')
  {
  }

  lemma HandedMoves(n: Node, k: nat, c: Command, p: Past)
    requires n.workers > 0 && p.life.Handed? && IsClaim(c) && k == n.Route(c.id)
    ensures Moves(n, k, c, p, p.(life := Live(false)))
  {
    hide IsLocal;
  }

  lemma ListenEffect(d: Driver, c: Command, e: Effect, a: Answer)
    requires c.Listen? && Mounted(Adapter(c.id)) && e == Process(d, c, a)
    ensures e.ok && e.events == [] && e.sends == [] && OnlyTouches(d, e.driver, c.id)
    ensures e.driver.remotes == d.remotes
    ensures c.id !in d.locals && c.id !in e.driver.locals ==> e.driver.locals == d.locals
  {
    hide Adapter, Mounted;
  }

  /** A request that has come to its end, one way or the other. */
  lemma RequestEnds(id: Id, p: Past, p': Past)
    requires LifeOk(id, p) && EventsOk(p) && SendsOk(p) && p.life.Requested? && p' == p.(life := p'.life)
    requires p'.life.Over? || (p'.life.Listening? && IsLocal(id))
    ensures LifeOk(id, p') && EventsOk(p') && SendsOk(p')
  {
    hide Faithful, IsLocal;
    assert Block(p.posted, [], 0);
  }

  lemma ListenOwn(n: Node, k: nat, c: Command, e: Effect)
    requires Carried(n, k, c, e) && c.Listen?
    ensures e.ok && OnlyTouches(n.drivers[k], e.driver, c.id) && Whole(Popped(n, k, e), c.id)
  {
    hide BaseValue, Adapter, Mounted, IsLocal, Claims, SendsIn, EventsOk, SendsOk, LifeOk, QueueOk, Process,
         RegisterOk, OnlyTouches;
    var n', id := Popped(n, k, e), c.id;
    HeadFacts(n, k, c);
    WholeLife(n, id);
    assert DriverOk(n, id, k);
    var p, p' := n.PastOf(id), n'.PastOf(id);
    assert p.life.Requested? && IsLocal(id);
    var a :| e == Process(n.drivers[k], c, a);
    ListenEffect(n.drivers[k], c, e, a);
    assert p' == p.(life := p'.life);
    RequestEnds(id, p, p');
    PoppedOwn(n, k, e);
  }

  lemma ConnectFailsOwn(n: Node, k: nat, c: Command, e: Effect)
    requires Carried(n, k, c, e) && c.Connect? && e.post.None?
    ensures e.ok && OnlyTouches(n.drivers[k], e.driver, c.id) && Whole(Popped(n, k, e), c.id)
  {
    hide BaseValue, Adapter, Mounted, IsLocal, Claims, SendsIn, EventsOk, SendsOk, LifeOk, QueueOk, Process, RegisterOk;
    var n', id := Popped(n, k, e), c.id;
    HeadFacts(n, k, c);
    WholeLife(n, id);
    assert DriverOk(n, id, k);
    var p, p' := n.PastOf(id), n'.PastOf(id);
    var a :| e == Process(n.drivers[k], c, a);
    ConnectEffect(n.drivers[k], c, e, a);
    assert p' == p.(life := Over);
    RequestEnds(id, p, p');
    PoppedOwn(n, k, e);
  }

  lemma ConnectEffect(d: Driver, c: Command, e: Effect, a: Answer)
    requires c.Connect? && Mounted(Adapter(c.id)) && e == Process(d, c, a)
    ensures e.ok && e.driver == d && e.events == [] && e.sends == []
    ensures e.post.Some? ==> e.post == Some(ConnectRegister(c.id))
  {
    hide Adapter, Mounted;
  }

  lemma ConnectQueue(n: Node, n': Node, k: nat, c: Command, j: nat)
    requires AtHead(n, k, c) && c.Connect? && j <= n.workers
    requires n'.Shaped() && n'.workers == n.workers && n'.PastOf(c.id) == n.PastOf(c.id).(life := Handed)
    requires k == n.workers && n'.queues[k] == n.queues[k][1..]
    requires n'.queues[n.Route(c.id)] == n.queues[n.Route(c.id)] + [ConnectRegister(c.id)]
    requires j != k && j != n.Route(c.id) ==> n'.queues[j] == n.queues[j]
    ensures QueueOk(n', c.id, j)
  {
    hide PastOk, DriverOk, IsLocal, Claims, SendsIn;
    var id := c.id;
    HeadFacts(n, k, c);
    assert QueueOk(n, id, j);
    ClaimsSnoc(n.queues[n.Route(id)], ConnectRegister(id), id);
    assert LifeOk(id, n.PastOf(id)) by { WholeLife(n, id); }
  }

  lemma WholeLife(n: Node, id: Id)
    requires n.Shaped() && Whole(n, id)
    ensures LifeOk(id, n.PastOf(id)) && EventsOk(n.PastOf(id)) && SendsOk(n.PastOf(id)) && BornOk(n, id)
  {
  }

  /** A connection that got its socket is handed to the worker it routes to. */
  lemma ConnectOwn(n: Node, k: nat, c: Command, e: Effect)
    requires Carried(n, k, c, e) && c.Connect? && e.post.Some?
    ensures e.ok && e.driver == n.drivers[k] && e.post == Some(ConnectRegister(c.id))
    ensures Whole(Post(Popped(n, k, e), n.Route(c.id), ConnectRegister(c.id)), c.id)
  {
    hide BaseValue, Adapter, Mounted, IsLocal, Claims, SendsIn, RegisterOk, QueueOk, Process, EventsOk, SendsOk, LifeOk;
    var id := c.id;
    var n' := Post(Popped(n, k, e), n.Route(id), ConnectRegister(id));
    HeadFacts(n, k, c);
    WholeLife(n, id);
    var p := n.PastOf(id);
    var a :| e == Process(n.drivers[k], c, a);
    ConnectEffect(n.drivers[k], c, e, a);
    assert n'.PastOf(id) == p.(life := Handed);
    HandedPast(id, p);
    forall j | 0 <= j <= n.workers ensures QueueOk(n', id, j) && DriverOk(n', id, j) {
      ConnectQueue(n, n', k, c, j);
      assert DriverOk(n, id, j);
    }
  }

  lemma HandedPast(id: Id, p: Past)
    requires LifeOk(id, p) && EventsOk(p) && SendsOk(p) && p.life.Requested? && InFlight(id, p) == [Connect(id)]
    ensures var p' := p.(life := Handed); LifeOk(id, p') && EventsOk(p') && SendsOk(p')
  {
    hide Faithful, IsLocal;
  }

  lemma CloseOwn(n: Node, k: nat, c: Command, e: Effect)
    requires Carried(n, k, c, e) && c.Close?
    ensures e.ok && OnlyTouches(n.drivers[k], e.driver, c.id) && Whole(Popped(n, k, e), c.id)
  {
    hide BaseValue, Adapter, Mounted, IsLocal, Claims, SendsIn, RegisterOk, EventsOk, SendsOk;
    var n', id := Popped(n, k, e), c.id;
    assert DriverOk(n, id, k);
    var p, p' := n.PastOf(id), n'.PastOf(id);
    if e.events == [] {
      assert p' == p;
      assert e.driver.remotes == n.drivers[k].remotes && e.driver.locals == n.drivers[k].locals;
    } else {
      assert p' == p.(life := Over, events := p.events + [Closed]);
      CloseLegal(p, p');
    }
    assert PastOk(n', id);
    PoppedOwn(n, k, e);
  }

  lemma CloseLegal(p: Past, p': Past)
    requires EventsOk(p) && SendsOk(p) && (p.life.Live? || p.life.Listening?)
    requires p' == p.(life := Over, events := p.events + [Closed])
    ensures EventsOk(p') && SendsOk(p')
  {
    hide Faithful, OpenEvents;
    var m := |HandedOver(p.sends)|;
    assert p'.events[..|p.events|] == p.events;
    assert Block(p.posted, HandedOver(p.sends), p.processed - m);
  }

  lemma SendOwn(n: Node, k: nat, c: Command, e: Effect)
    requires Carried(n, k, c, e) && c.Send?
    ensures e.ok && e.driver == n.drivers[k] && Whole(Popped(n, k, e), c.id)
  {
    hide BaseValue, Adapter, IsLocal, Claims, SendsIn, EventsOk, SendsOk, SendFrom, Faithful;
    var n', id := Popped(n, k, e), c.id;
    HeadFacts(n, k, c);
    assert DriverOk(n, id, k);
    var p, p' := n.PastOf(id), n'.PastOf(id);
    assert p.events + [] == p.events;
    assert p' == p.(processed := p.processed + 1, sends := p.sends + e.sends);
    var a :| e == Process(n.drivers[k], c, a);
    if e.sends == [] {
      assert p.sends + [] == p.sends;
      SkippedSend(p);
    } else {
      SendCallFaithful(n.drivers[k].remotes[id].resource, c.data, a);
      HandedSend(p, e.sends[0]);
      assert p.sends + [e.sends[0]] == p.sends + e.sends;
    }
    assert EventsOk(p') by { SameEvents(p, p'); }
    assert PastOk(n', id);
    PoppedOwn(n, k, e);
  }

  lemma SameEvents(p: Past, p': Past)
    requires EventsOk(p) && p'.life == p.life && p'.origin == p.origin && p'.events == p.events
    ensures EventsOk(p')
  {
  }

  /** A send for a resource that is not ready, or no longer there. */
  lemma SkippedSend(p: Past)
    requires SendsOk(p) && p.processed < |p.posted| && p.life != Live(true)
    ensures SendsOk(p.(processed := p.processed + 1))
  {
    hide Faithful;
  }

  lemma HandedSend(p: Past, r: SendRecord)
    requires SendsOk(p) && p.processed < |p.posted| && p.life == Live(true)
    requires r.data == p.posted[p.processed] && Faithful([r])
    ensures SendsOk(p.(processed := p.processed + 1, sends := p.sends + [r]))
  {
    var sends := p.sends + [r];
    assert sends[..|sends| - 1] == p.sends;
    var handed := HandedOver(p.sends);
    assert HandedOver(sends) == handed + [r.data];
    var start := p.processed - |handed|;
    assert p.posted[start..p.processed + 1] == p.posted[start..p.processed] + [r.data];
    assert r in [r];
  }

  lemma SendCallFaithful(r: Resource, data: Bytes, a: Answer)
    ensures SendCall(r, data, a).Some? ==> Faithful([SendCall(r, data, a).value])
  {
    hide SendFrom;
    SendWritesPrefix(data, 0, a.writes, MAX_TRIES);
  }

  /** Every command, carried out at the head of its queue, keeps its own resource whole. */
  lemma CommandOwn(n: Node, k: nat, c: Command, e: Effect)
    requires Carried(n, k, c, e)
    ensures e.ok && OnlyTouches(n.drivers[k], e.driver, c.id)
    ensures e.post.None? ==> Whole(Popped(n, k, e), c.id)
    ensures e.post.Some? ==> e.post.value.id == c.id && Whole(Post(Popped(n, k, e), n.Route(c.id), e.post.value), c.id)
  {
    match c
    case Connect(_) => if e.post.Some? { ConnectOwn(n, k, c, e); } else { ConnectFailsOwn(n, k, c, e); }
    case ConnectRegister(_) => RegisterOwn(n, k, c, e);
    case AcceptRegister(_, _) => RegisterOwn(n, k, c, e);
    case Listen(_) => ListenOwn(n, k, c, e);
    case Send(_, _) => SendOwn(n, k, c, e);
    case Close(_) => CloseOwn(n, k, c, e);
  }

  lemma PoppedBorn(n: Node, k: nat, e: Effect)
    requires Inv(n) && k <= n.workers && n.queues[k] != []
    ensures Born(n, n.queues[k][0].id) && Born(Popped(n, k, e), n.queues[k][0].id)
    ensures CommandsBorn(Popped(n, k, e)) && IssuedOnce(Popped(n, k, e))
  {
    hide IssuedOnce, Whole;
    var id, n' := n.queues[k][0].id, Popped(n, k, e);
    assert Born(n, id);
    forall i: Id | Born(n, i) ensures Born(n', i) {
    }
    hide CommandsBorn;
    StillBorn(n, n');
  }

  lemma CarryKeeps(n: Node, k: nat, a: Answer)
    requires Inv(n) && k <= n.workers && n.queues[k] != []
    ensures Inv(Carry(n, k, a))
  {
    hide Whole, OnlyTouches, CommandsBorn, IssuedOnce, Process, PastAfterCommand, Born;
    var c := n.queues[k][0];
    var e := Process(n.drivers[k], c, a);
    var n1, n' := Popped(n, k, e), Carry(n, k, a);
    PoppedBorn(n, k, e);
    assert Whole(n, c.id);
    CommandOwn(n, k, c, e);
    if e.post.Some? {
      assert n1.past == n1.past[c.id := n'.PastOf(c.id)];
      assert Posted(n1, n', c.id, n.Route(c.id), e.post.value);
      assert Born(n', c.id) by { SameBorn(n1, n', c.id); }
      PostBorn(n1, n', c.id, n.Route(c.id), e.post.value);
    }
    forall id: Id ensures Whole(n', id) {
      assert Whole(n, id);
      if id != c.id {
        PoppedOthers(n, k, e, id);
        if e.post.Some? {
          PostOthers(n1, n', c.id, n.Route(c.id), e.post.value, id);
        }
      }
    }
  }

  lemma SameBorn(n: Node, n': Node, id: Id)
    requires Born(n, id) && n'.past == n.past
    ensures Born(n', id)
  {
  }

  // ---------------------------------------------------------------- every step, every run

  lemma PostMintedStepsKeep(n: Node, id: Id)
    requires Inv(n)
    ensures Inv(Take(n, PostAccept(id))) && Inv(Take(n, PostConnect(id))) && Inv(Take(n, PostListen(id)))
  {
    hide CommandsBorn, IssuedOnce, PostMinted, IsLocal;
    assert Whole(n, id) && LifeOk(id, n.PastOf(id));
    hide Whole;
    var p := n.PastOf(id);
    if p.life.Minted? {
      if p.origin.Some? {
        PostMintedKeeps(n, id, n.Route(id), AcceptRegister(p.origin.value, id), Handed);
      }
      if p.origin.None? && !IsLocal(id) {
        PostMintedKeeps(n, id, n.workers, Connect(id), Requested);
      }
      if IsLocal(id) {
        PostMintedKeeps(n, id, n.workers, Listen(id), Requested);
      }
    }
  }

  lemma TakeKeeps(n: Node, step: Step)
    requires Inv(n)
    ensures Inv(Take(n, step))
  {
    hide Whole, CommandsBorn, IssuedOnce, Mint, PostMinted, Poll, Carry, IsLocal, Adapter, ProcessRead, ProcessWrite;
    match step
    case MintRemote(adapter) => MintKeeps(n, adapter, false, None);
    case MintLocal(adapter) => MintKeeps(n, adapter, true, None);
    case PostConnect(id) => PostMintedStepsKeep(n, id);
    case PostListen(id) => PostMintedStepsKeep(n, id);
    case PostAccept(id) => PostMintedStepsKeep(n, id);
    case UserSend(id, data) => if Born(n, id) { UserSendKeeps(n, id, data); }
    case UserClose(id) => if Born(n, id) { UserCloseKeeps(n, id); }
    case Accept(k, l) => MintKeeps(n, Adapter(l), false, Some(l));
    case PollRead(k, id, a) => if k <= n.workers && Born(n, id) { PollStepKeeps(n, k, id, a); }
    case PollWrite(k, id, a) => if k <= n.workers && Born(n, id) { PollStepKeeps(n, k, id, a); }
    case ProcessNext(k, a) => if k <= n.workers && n.queues[k] != [] { CarryKeeps(n, k, a); }
  }

  lemma NewNodeInv(workers: nat)
    requires workers > 0
    ensures Inv(NewNode(workers))
  {
    var n := NewNode(workers);
    forall id: Id ensures Whole(n, id) {
      assert n.PastOf(id) == UNBORN;
    }
  }

  lemma {:induction false} RunKeeps(n: Node, steps: seq<Step>)
    requires Inv(n)
    ensures Inv(Run(n, steps))
    decreases steps
  {
    hide Whole, CommandsBorn, IssuedOnce, Take;
    if steps != [] {
      TakeKeeps(n, steps[0]);
      TakeShaped(n, steps[0]);
      RunKeeps(Take(n, steps[0]), steps[1..]);
    }
  }
}
