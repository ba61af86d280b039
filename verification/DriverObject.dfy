/**
 The drivers as the objects that `src/network/registry.rs` and the `*_driver.rs` files update in place.
 Each call does what the function of the same name in `Drivers` says, as long as that does not panic.
 */
module DriverObjects {
  import opened Base
  import opened ResourceIds
  import opened Remotes
  import opened Drivers

  /** One registered remote; it is shared, and outlives its removal while a caller still holds it. */
  class RemoteRegister {
    const local: Option<Id>
    var ready: bool
    var resource: Resource

    ghost function View(): Register
      reads this
    {
      Register(local, ready, resource)
    }

    constructor (resource: Resource, local: Option<Id>)
      ensures View() == Register(local, false, resource)
    {
      this.local, this.resource, ready := local, resource, false;
    }

    /** A handshake is taken out of the remote and put back, or the state replaced, before the call ends. */
    method CallPending(a: Answer) returns (status: PendingStatus)
      requires PendingCall(resource, a).Some?
      modifies this`resource
      ensures Some((status, resource)) == PendingCall(old(resource), a)
    {
      if resource.Tcp? {
        return a.tcp;
      }
      if resource.state.WebSocket? {
        return Ready;
      }
      var pending := resource.state.pending.value;
      resource := Ws(Handshake(None));
      if pending.Connecting? && !a.tcp.Ready? {
        resource := Ws(Handshake(Some(Connecting)));
        return a.tcp;
      }
      match a.handshake {
        case Finished =>
          resource := Ws(WebSocket);
          status := Ready;
        case Interrupted =>
          var client := pending.Connecting? || pending.ClientHandshake?;
          resource := Ws(Handshake(Some(if client then ClientHandshake else ServerHandshake)));
          status := Incomplete;
        case Failure =>
          resource := Ws(Failed);
          status := Disconnected;
      }
    }
  }

  class ResourceRegistry<R(==)> {
    var resources: map<Id, R>

    constructor ()
      ensures resources == map[]
    {
      resources := map[];
    }

    method Add(id: Id, r: R)
      modifies this
      ensures resources == old(resources)[id := r]
    {
      resources := resources[id := r];
    }

    method Deregister(id: Id) returns (found: bool)
      modifies this
      ensures resources == old(resources) - {id} && found == (id in old(resources))
    {
      found := id in resources;
      resources := resources - {id};
    }

    method Get(id: Id) returns (r: Option<R>)
      ensures r == if id in resources then Some(resources[id]) else None
    {
      r := if id in resources then Some(resources[id]) else None;
    }
  }

  ghost function Views(resources: map<Id, RemoteRegister>): map<Id, Register>
    reads resources.Values
  {
    map id | id in resources :: resources[id].View()
  }

  /** No two identifiers share a register. */
  ghost predicate Apart(resources: map<Id, RemoteRegister>) {
    forall a, b | a in resources && b in resources && a != b :: resources[a] != resources[b]
  }

  class DriverObject {
    const remotes: ResourceRegistry<RemoteRegister>
    const locals: ResourceRegistry<()>

    ghost predicate Valid()
      reads this, remotes
    {
      Apart(remotes.resources)
    }

    ghost function View(): Driver
      reads this, remotes, locals, remotes.resources.Values
    {
      Driver(Views(remotes.resources), locals.resources.Keys)
    }

    constructor ()
      ensures Valid() && View() == Driver(map[], {}) && fresh(remotes) && fresh(locals)
    {
      remotes := new ResourceRegistry();
      locals := new ResourceRegistry();
    }

    method ResolveRemote(id: Id, reg: RemoteRegister, a: Answer) returns (events: seq<Event>)
      requires Valid() && id in remotes.resources && remotes.resources[id] == reg
      requires ResolvePending(View(), id, a).ok
      modifies remotes, reg
      ensures Valid()
      ensures remotes.resources == old(remotes.resources) || remotes.resources == old(remotes.resources) - {id}
      ensures Resolved(View(), reg.View(), events, true) == ResolvePending(old(View()), id, a)
      ensures fresh(remotes.resources.Values - old(remotes.resources.Values))
    {
      hide PendingCall;
      var status := reg.CallPending(a);
      match status {
        case Ready =>
          reg.ready := true;
          events := [if reg.local.Some? then Accepted(reg.local.value) else Connected(true)];
          assert Views(remotes.resources) == old(Views(remotes.resources))[id := reg.View()];
        case Incomplete =>
          events := [];
          assert Views(remotes.resources) == old(Views(remotes.resources))[id := reg.View()];
        case Disconnected =>
          var _ := remotes.Deregister(id);
          events := if reg.local.None? then [Connected(false)] else [];
          assert Views(remotes.resources) == old(Views(remotes.resources)) - {id};
      }
    }

    /** Remove a remote from the registry. */
    method Remove(id: Id) returns (found: bool)
      requires Valid()
      modifies remotes
      ensures Valid() && remotes.resources == old(remotes.resources) - {id}
      ensures View() == old(View()).(remotes := old(View()).remotes - {id}) && found == (id in old(View()).remotes)
      ensures fresh(remotes.resources.Values - old(remotes.resources.Values))
    {
      found := remotes.Deregister(id);
      assert Views(remotes.resources) == old(Views(remotes.resources)) - {id};
    }

    method ReadRemote(id: Id, reg: RemoteRegister, a: Answer) returns (events: seq<Event>)
      requires Valid() && Drivers.ReadFromRemote(View(), id, reg.View(), a).ok
      modifies remotes
      ensures Valid()
      ensures Effect(View(), events, [], None, true) == Drivers.ReadFromRemote(old(View()), id, old(reg.View()), a)
      ensures fresh(remotes.resources.Values - old(remotes.resources.Values))
    {
      events := Drivers.Messages(a.received);
      if a.lost {
        var found := Remove(id);
        if found {
          events := events + [Lost];
        }
      }
    }

    /** A remote that is not ready is asked; a ready one is left as it is. */
    method SettleRemote(id: Id, reg: RemoteRegister, a: Answer) returns (events: seq<Event>)
      requires Valid() && id in remotes.resources && remotes.resources[id] == reg
      requires Settle(View(), id, a).ok
      modifies remotes, reg
      ensures Valid() && Resolved(View(), reg.View(), events, true) == Settle(old(View()), id, a)
      ensures remotes.resources == old(remotes.resources) || remotes.resources == old(remotes.resources) - {id}
    {
      hide ResolvePending;
      events := [];
      if !reg.ready {
        events := ResolveRemote(id, reg, a);
      }
    }

    method Read(id: Id, a: Answer) returns (events: seq<Event>)
      requires Valid() && ProcessRead(View(), id, a).ok
      modifies remotes, remotes.resources.Values
      ensures Valid() && Effect(View(), events, [], None, true) == ProcessRead(old(View()), id, a)
      ensures fresh(remotes.resources.Values - old(remotes.resources.Values))
    {
      hide Settle, Drivers.ReadFromRemote, Adapter, Mounted, IsLocal;
      events := [];
      if IsLocal(id) {
        return;
      }
      var found := remotes.Get(id);
      if found.None? {
        return;
      }
      var reg := found.value;
      events := SettleRemote(id, reg, a);
      if reg.ready {
        var more := ReadRemote(id, reg, a);
        events := events + more;
      }
    }

    method Write(id: Id, a: Answer) returns (events: seq<Event>)
      requires Valid() && ProcessWrite(View(), id, a).ok
      modifies remotes, remotes.resources.Values
      ensures Valid() && Effect(View(), events, [], None, true) == ProcessWrite(old(View()), id, a)
      ensures fresh(remotes.resources.Values - old(remotes.resources.Values))
    {
      hide Settle, Adapter, Mounted, IsLocal;
      events := [];
      if !IsLocal(id) {
        var found := remotes.Get(id);
        if found.Some? {
          events := SettleRemote(id, found.value, a);
        }
      }
    }

    method AddRemote(id: Id, resource: Resource, local: Option<Id>)
      requires Valid()
      modifies remotes
      ensures Valid() && View() == old(View()).(remotes := old(View()).remotes[id := Register(local, false, resource)])
      ensures fresh(remotes.resources.Values - old(remotes.resources.Values))
    {
      var reg := new RemoteRegister(resource, local);
      remotes.Add(id, reg);
      assert Views(remotes.resources) == old(Views(remotes.resources))[id := Register(local, false, resource)];
    }

    method Send(id: Id, data: Bytes, a: Answer) returns (sends: seq<SendRecord>)
      requires Valid() && ProcessSend(View(), id, data, a).ok
      ensures Effect(View(), [], sends, None, true) == ProcessSend(View(), id, data, a)
    {
      hide SendFrom;
      sends := [];
      if !IsLocal(id) {
        var found := remotes.Get(id);
        if found.Some? && found.value.ready {
          if found.value.resource.Tcp? {
            var status, written := SendTcp(data, a.writes);
            sends := [SendRecord(data, status, written)];
          } else {
            sends := [SendRecord(data, a.wsStatus, if a.wsStatus.Sent? then |data| else 0)];
          }
        }
      }
    }

    method Close(id: Id) returns (found: bool)
      requires Valid()
      modifies remotes, locals
      ensures Valid()
      ensures Effect(View(), if found then [Closed] else [], [], None, true) == ProcessClose(old(View()), id)
      ensures fresh(remotes.resources.Values - old(remotes.resources.Values))
    {
      if IsLocal(id) {
        found := locals.Deregister(id);
      } else {
        found := Remove(id);
      }
    }

    /** One command: what it emits, gives to the transport and posts. */
    method Carry(command: Command, a: Answer)
      returns (events: seq<Event>, sends: seq<SendRecord>, post: Option<Command>)
      requires Valid() && Process(View(), command, a).ok
      modifies remotes, locals
      ensures Valid() && Effect(View(), events, sends, post, true) == Process(old(View()), command, a)
      ensures fresh(remotes.resources.Values - old(remotes.resources.Values))
    {
      hide ProcessSend, ProcessClose;
      events, sends, post := [], [], None;
      match command {
        case Connect(id) =>
          if a.socketMade {
            post := Some(ConnectRegister(id));
          }
        case ConnectRegister(id) =>
          AddRemote(id, NewResource(id, Connecting), None);
        case AcceptRegister(l, id) =>
          AddRemote(id, NewResource(id, Accepting), Some(l));
        case Listen(id) =>
          if a.socketMade {
            locals.Add(id, ());
          }
        case Send(id, data) =>
          sends := Send(id, data, a);
        case Close(id) =>
          var found := Close(id);
          events := if found then [Closed] else [];
      }
    }
  }
}
