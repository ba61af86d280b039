/**
 The drivers (`src/adapters/tcp/tcp_driver.rs`, `src/adapters/ws/ws_driver.rs`): what each call does to the
 registries, which events it emits and which commands it posts.
 */
module Drivers {
  import opened Base
  import opened ResourceIds
  import opened Remotes

  datatype Register = Register(local: Option<Id>, ready: bool, resource: Resource)

  /** The registries of one thread.  The adapter is part of the identifier, so one map serves all adapters. */
  datatype Driver = Driver(remotes: map<Id, Register>, locals: set<Id>)

  datatype Command =
    | Connect(id: Id) | ConnectRegister(id: Id) | AcceptRegister(listener: Id, id: Id)
    | Listen(id: Id) | Send(id: Id, data: Bytes) | Close(id: Id)

  /** What the user sees of one resource, and the closes that removed it. */
  datatype Event = Connected(established: bool) | Accepted(listener: Id) | Message(data: Bytes) | Lost | Closed

  /** `ok` is false when the call panics. */
  datatype Effect = Effect(driver: Driver, events: seq<Event>, sends: seq<SendRecord>, post: Option<Command>, ok: bool)

  function Quiet(d: Driver): Effect {
    Effect(d, [], [], None, true)
  }

  function Panic(d: Driver): Effect {
    Effect(d, [], [], None, false)
  }

  // ---------------------------------------------------------------- readiness

  function ReadyEvent(local: Option<Id>): Event {
    match local case Some(l) => Accepted(l) case None => Connected(true)
  }

  /** `reg` is the register the caller still holds, whether or not it was removed from the registry. */
  datatype Resolved = Resolved(driver: Driver, reg: Register, events: seq<Event>, ok: bool)

  function ResolvePending(d: Driver, id: Id, a: Answer): Resolved
    requires id in d.remotes
  {
    var reg := d.remotes[id];
    match PendingCall(reg.resource, a)
    case None => Resolved(d, reg, [], false)
    case Some((status, resource)) =>
      var reg' := reg.(resource := resource, ready := reg.ready || status.Ready?);
      match status
      case Ready => Resolved(d.(remotes := d.remotes[id := reg']), reg', [ReadyEvent(reg.local)], true)
      case Incomplete => Resolved(d.(remotes := d.remotes[id := reg']), reg', [], true)
      case Disconnected =>
        Resolved(d.(remotes := d.remotes - {id}), reg', if reg.local.None? then [Connected(false)] else [], true)
  }

  /** Resolve a remote that is not ready; a ready one is left as it is. */
  function Settle(d: Driver, id: Id, a: Answer): Resolved
    requires id in d.remotes
  {
    if d.remotes[id].ready then Resolved(d, d.remotes[id], [], true) else ResolvePending(d, id, a)
  }

  function Messages(received: seq<Bytes>): (events: seq<Event>)
    ensures |events| == |received|
  {
    seq(|received|, i requires 0 <= i < |received| => Message(received[i]))
  }

  function ReadFromRemote(d: Driver, id: Id, reg: Register, a: Answer): Effect {
    if !Usable(reg.resource) then Panic(d)
    else if a.lost && id in d.remotes then
      Effect(d.(remotes := d.remotes - {id}), Messages(a.received) + [Lost], [], None, true)
    else Effect(d, Messages(a.received), [], None, true)
  }

  /** Poll says readable.  Listeners are read by `Accept` steps, connection by connection. */
  function ProcessRead(d: Driver, id: Id, a: Answer): Effect {
    if !Mounted(Adapter(id)) then Panic(d)
    else if IsLocal(id) || id !in d.remotes then Quiet(d)
    else
      var s := Settle(d, id, a);
      if !s.ok then Panic(s.driver)
      else if !s.reg.ready then Effect(s.driver, s.events, [], None, true)
      else
        var r := ReadFromRemote(s.driver, id, s.reg, a);
        r.(events := s.events + r.events)
  }

  /** Poll says writable; no adapter refuses `ready_to_write`. */
  function ProcessWrite(d: Driver, id: Id, a: Answer): Effect {
    if !Mounted(Adapter(id)) then Panic(d)
    else if IsLocal(id) || id !in d.remotes then Quiet(d)
    else
      var s := Settle(d, id, a);
      Effect(s.driver, s.events, [], None, s.ok)
  }

  // ---------------------------------------------------------------- commands

  function NewResource(id: Id, pending: Pending): Resource {
    if Adapter(id) == WS then Ws(Handshake(Some(pending))) else Tcp
  }

  function ProcessSend(d: Driver, id: Id, data: Bytes, a: Answer): Effect {
    if IsLocal(id) then if id in d.locals then Panic(d) else Quiet(d)
    else if id !in d.remotes || !d.remotes[id].ready then Quiet(d)
    else
      match SendCall(d.remotes[id].resource, data, a)
      case None => Panic(d)
      case Some(record) => Effect(d, [], [record], None, true)
  }

  function ProcessClose(d: Driver, id: Id): Effect {
    var found := if IsLocal(id) then id in d.locals else id in d.remotes;
    var d' := if IsLocal(id) then d.(locals := d.locals - {id}) else d.(remotes := d.remotes - {id});
    Effect(d', if found then [Closed] else [], [], None, true)
  }

  function Process(d: Driver, command: Command, a: Answer): Effect {
    if !Mounted(Adapter(command.id)) then Panic(d)
    else
      match command
      case Connect(id) => Effect(d, [], [], if a.socketMade then Some(ConnectRegister(id)) else None, true)
      case ConnectRegister(id) =>
        Quiet(d.(remotes := d.remotes[id := Register(None, false, NewResource(id, Connecting))]))
      case AcceptRegister(l, id) =>
        Quiet(d.(remotes := d.remotes[id := Register(Some(l), false, NewResource(id, Accepting))]))
      case Listen(id) => Quiet(if a.socketMade then d.(locals := d.locals + {id}) else d)
      case Send(id, data) => ProcessSend(d, id, data, a)
      case Close(id) => ProcessClose(d, id)
  }
}
