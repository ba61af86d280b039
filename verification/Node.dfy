/**
 A node: one master and `n` workers, each with its command queue and registries, under any interleaving of
 user calls, poll events and command processing (`src/node.rs`, `src/network.rs`).
 */
module Nodes {
  import opened Base
  import opened ResourceIds
  import opened Remotes
  import opened Drivers

  /** Where a resource stands. */
  datatype Life = Unborn | Minted | Requested | Handed | Live(ready: bool) | Listening | Over

  /**
   What has happened to one resource: the listener that accepted it, if any; what the user saw of it; the
   buffers posted for it; how many of those were taken off the queue; and those given to its transport.
   */
  datatype Past = Past(life: Life, origin: Option<Id>, events: seq<Event>,
                       posted: seq<Bytes>, processed: nat, sends: seq<SendRecord>)

  const UNBORN := Past(Unborn, None, [], [], 0, [])

  /** Thread `n` of `n + 1` is the master. */
  datatype Node = Node(workers: nat, queues: seq<seq<Command>>, drivers: seq<Driver>,
                       nextRemote: nat, nextLocal: nat, past: map<Id, Past>, issued: seq<Id>, panicked: bool)
  {
    predicate Shaped() {
      workers > 0 && |queues| == workers + 1 && |drivers| == workers + 1
    }

    function PastOf(id: Id): Past {
      if id in past then past[id] else UNBORN
    }

    function Route(id: Id): nat
      requires workers > 0
    {
      id % workers
    }
  }

  function NewNode(workers: nat): Node {
    Node(workers, seq(workers + 1, _ => []), seq(workers + 1, _ => Driver(map[], {})), 1, 1, map[], [], false)
  }

  /** `k` names the thread that takes the step. */
  datatype Step =
    | MintRemote(adapter: nat) | PostConnect(id: Id)
    | MintLocal(adapter: nat) | PostListen(id: Id)
    | UserSend(id: Id, data: Bytes) | UserClose(id: Id)
    | Accept(k: nat, listener: Id) | PostAccept(id: Id)
    | PollRead(k: nat, id: Id, answer: Answer) | PollWrite(k: nat, id: Id, answer: Answer)
    | ProcessNext(k: nat, answer: Answer)

  function SetPast(n: Node, id: Id, p: Past): Node {
    n.(past := n.past[id := p])
  }

  function Post(n: Node, k: nat, command: Command): (r: Node)
    requires k < |n.queues|
    ensures r == n.(queues := r.queues) && |r.queues| == |n.queues|
  {
    n.(queues := n.queues[k := n.queues[k] + [command]])
  }

  /** A generator that has run through its 48-bit values issues no more. */
  function Mint(n: Node, adapter: nat, local: bool, origin: Option<Id>): Node {
    var base := if local then n.nextLocal else n.nextRemote;
    if !Mounted(adapter) || base >= BASE_LIMIT then n
    else
      var id := Pack(adapter, local, base);
      var n' := if local then n.(nextLocal := base + 1) else n.(nextRemote := base + 1);
      SetPast(n'.(issued := n.issued + [id]), id, UNBORN.(life := Minted, origin := origin))
  }

  /** The command that brings a minted resource on its way. */
  function PostMinted(n: Node, id: Id, k: nat, command: Command, life: Life): Node
    requires k < |n.queues|
  {
    Post(SetPast(n, id, n.PastOf(id).(life := life)), k, command)
  }

  /** Where a resource stands after a driver call on the thread it lives on. */
  function LifeAfter(life: Life, before: Driver, after: Driver, id: Id): Life {
    if id in before.remotes then
      if id in after.remotes then Live(after.remotes[id].ready) else Over
    else life
  }

  function Poll(n: Node, k: nat, id: Id, e: Effect): Node
    requires k < |n.drivers|
  {
    var p := n.PastOf(id);
    SetPast(n.(drivers := n.drivers[k := e.driver], panicked := n.panicked || !e.ok), id,
            p.(life := LifeAfter(p.life, n.drivers[k], e.driver, id), events := p.events + e.events))
  }

  function LifeAfterCommand(life: Life, command: Command, e: Effect): Life {
    match command
    case Connect(_) => if e.post.Some? then Handed else Over
    case ConnectRegister(_) => Live(false)
    case AcceptRegister(_, _) => Live(false)
    case Listen(id) => if id in e.driver.locals then Listening else Over
    case Send(_, _) => life
    case Close(_) => if e.events == [] then life else Over
  }

  function PastAfterCommand(p: Past, command: Command, e: Effect): Past {
    p.(life := LifeAfterCommand(p.life, command, e), events := p.events + e.events,
       processed := p.processed + (if command.Send? then 1 else 0), sends := p.sends + e.sends)
  }

  /** Take the first command off the queue of thread `k` and carry it out there. */
  function Popped(n: Node, k: nat, e: Effect): Node
    requires n.Shaped() && k <= n.workers && n.queues[k] != []
  {
    var command := n.queues[k][0];
    SetPast(n.(queues := n.queues[k := n.queues[k][1..]], drivers := n.drivers[k := e.driver],
               panicked := n.panicked || !e.ok),
            command.id, PastAfterCommand(n.PastOf(command.id), command, e))
  }

  function Carry(n: Node, k: nat, a: Answer): Node
    requires n.Shaped() && k <= n.workers && n.queues[k] != []
  {
    var e := Process(n.drivers[k], n.queues[k][0], a);
    var n' := Popped(n, k, e);
    if e.post.Some? then Post(n', n.Route(n.queues[k][0].id), e.post.value) else n'
  }

  /** A step that is not possible now changes nothing. */
  function Take(n: Node, step: Step): Node
    requires n.Shaped()
  {
    match step
    case MintRemote(adapter) => Mint(n, adapter, false, None)
    case MintLocal(adapter) => Mint(n, adapter, true, None)
    case PostConnect(id) =>
      if n.PastOf(id).life.Minted? && n.PastOf(id).origin.None? && !IsLocal(id)
      then PostMinted(n, id, n.workers, Connect(id), Requested) else n
    case PostListen(id) =>
      if n.PastOf(id).life.Minted? && IsLocal(id) then PostMinted(n, id, n.workers, Listen(id), Requested) else n
    case UserSend(id, data) =>
      var p := n.PastOf(id);
      if p.life.Unborn? then n else Post(SetPast(n, id, p.(posted := p.posted + [data])), n.Route(id), Send(id, data))
    case UserClose(id) =>
      if n.PastOf(id).life.Unborn? then n
      else Post(n, if IsLocal(id) then n.workers else n.Route(id), Close(id))
    case Accept(k, l) =>
      if k <= n.workers && l in n.drivers[k].locals then Mint(n, Adapter(l), false, Some(l)) else n
    case PostAccept(id) =>
      if n.PastOf(id).life.Minted? && n.PastOf(id).origin.Some?
      then PostMinted(n, id, n.Route(id), AcceptRegister(n.PastOf(id).origin.value, id), Handed) else n
    case PollRead(k, id, a) =>
      if k > n.workers || n.PastOf(id).life.Unborn? then n else Poll(n, k, id, ProcessRead(n.drivers[k], id, a))
    case PollWrite(k, id, a) =>
      if k > n.workers || n.PastOf(id).life.Unborn? then n else Poll(n, k, id, ProcessWrite(n.drivers[k], id, a))
    case ProcessNext(k, a) =>
      if k > n.workers || n.queues[k] == [] then n else Carry(n, k, a)
  }

  lemma TakeShaped(n: Node, step: Step)
    requires n.Shaped()
    ensures Take(n, step).Shaped() && Take(n, step).workers == n.workers
  {
    hide Process, ProcessRead, ProcessWrite, Mounted, Pack, IsLocal;
  }

  function Run(n: Node, steps: seq<Step>): Node
    requires n.Shaped()
    decreases steps
  {
    if steps == [] then n
    else
      TakeShaped(n, steps[0]);
      Run(Take(n, steps[0]), steps[1..])
  }
}
