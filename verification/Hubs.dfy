/** A hub owns ports, registers each of them with a poller, and finds them by ID. */
module Hubs {
  import opened Words
  import opened Naming
  import opened Messages
  import opened Wire
  import opened Ports

  datatype Event = PollIn | PollOut

  // A socket's entry in the poller: the events asked for, and the port ID its
  // callback was given.
  datatype Registration = Registration(flags: set<Event>, portID: u16)

  // BadName: std::stoi throws on the name the package came with.
  datatype HubReceived = NoPort | BadName(how: Received) | Got(how: Received)

  class Hub {
    const hubName: string
    const ctx: Context
    var ports: map<u16, Port>
    var poller: map<string, Registration>
    var pollPortID: u16
    var pollEventFlags: set<Event>

    function Socket(portID: u16): string {
      HubSocket(hubName, portID)
    }

    // Map and poller hold the same ports: every mapped port is bound under the
    // name that encodes hub and ID, and is registered with its own ID; every
    // registration belongs to a mapped port.
    ghost predicate Valid()
      reads `ports, `poller, ctx
    {
      ctx.Idle() && Wired(ctx.packages.Keys)
    }

    ghost predicate Wired(bound: set<string>)
      reads `ports, `poller
    {
      (forall i :: i in ports ==>
         ports[i].ctx == ctx && ports[i].transport == Inproc && ports[i].portName == PortNameOf(hubName, i) &&
         Socket(i) in bound && Socket(i) in poller && poller[Socket(i)].portID == i) &&
      (forall s :: s in poller ==> poller[s].portID in ports && s == Socket(poller[s].portID))
    }

    // What a receiver reads off a sender: each port's name
    // decodes to the hub and the port's own ID exactly when the hub name is free of '-'.
    lemma NamesDecode()
      requires Valid() && ports != map[]
      ensures (forall i :: i in ports ==> ParsePortName(ports[i].portName) == (hubName, Some(i))) <==> '-' !in hubName
    {
      hide PortNameOf, ParsePortName, PortNameToSocketID, Print;
      forall i | i in ports
        ensures ParsePortName(ports[i].portName) == (hubName, Some(i)) <==> '-' !in hubName
      {
        PortNameRoundTrip(hubName, i);
      }
      var i :| i in ports;
      assert ParsePortName(ports[i].portName) == (hubName, Some(i)) <==> '-' !in hubName;
    }

    constructor (hubName: string, ctx: Context)
      requires ctx.Idle()
      ensures Valid() && this.hubName == hubName && this.ctx == ctx && ports == map[]
    {
      this.hubName, this.ctx := hubName, ctx;
      ports, poller := map[], map[];
      pollPortID, pollEventFlags := 0, {};
    }

    // Returns false where bind throws because the port's address is in use.
    method AddPort(portID: u16, transport: Transport, flags: set<Event>) returns (ok: bool)
      requires Valid() && transport.Inproc?
      modifies this, ctx
      ensures Valid()
      ensures ok <==> Socket(portID) !in old(ctx.packages)
      ensures ok ==>
                portID !in old(ports) && ports.Keys == old(ports.Keys) + {portID} &&
                (forall i :: i in old(ports) ==> ports[i] == old(ports[i])) &&
                poller == old(poller)[Socket(portID) := Registration(flags, portID)] &&
                ctx.packages == old(ctx.packages)[Socket(portID) := []]
      ensures !ok ==> ports == old(ports) && poller == old(poller) && ctx.packages == old(ctx.packages)
    {
      hide PortNameOf, PortNameToSocketID, Print;
      if Socket(portID) in ctx.inboxes {
        return false;
      }
      ghost var bound := ctx.packages.Keys;
      var port := new Port(PortNameOf(hubName, portID), transport, ctx);
      Register(portID, port, flags, bound);
      ok := true;
    }

    method Register(portID: u16, port: Port, flags: set<Event>, ghost bound: set<string>)
      requires Wired(bound) && Socket(portID) !in bound
      requires port.ctx == ctx && port.transport == Inproc && port.portName == PortNameOf(hubName, portID)
      modifies `ports, `poller
      ensures Wired(bound + {Socket(portID)})
      ensures portID !in old(ports)
      ensures ports == old(ports)[portID := port]
      ensures poller == old(poller)[Socket(portID) := Registration(flags, portID)]
    {
      hide PortNameOf, PortNameToSocketID;
      ports := ports[portID := port];
      poller := poller[port.Socket() := Registration(flags, portID)];
    }

    // The socket is forgotten but not closed: its address stays in use, so the
    // same ID cannot be added again.
    method RemovePort(portID: u16)
      requires Valid() && portID in ports
      modifies this
      ensures Valid()
      ensures ports == old(ports) - {portID} && poller == old(poller) - {Socket(portID)}
      ensures Socket(portID) in ctx.packages
    {
      hide PortNameOf, PortNameToSocketID, Print;
      var port := ports[portID];
      ports := ports - {portID};
      poller := poller - {port.Socket()};
      forall i | i in ports
        ensures Socket(i) != Socket(portID)
      {
        HubSocketInjective(hubName, i, portID);
      }
    }

    function FindPort(portID: u16): (port: Port?)
      requires Valid()
      reads this, ctx
      ensures port != null <==> portID in ports
      ensures port != null ==>
                port == ports[portID] && port.Valid() && port.ctx == ctx && port.transport == Inproc &&
                port.Socket() == Socket(portID)
    {
      if portID in ports then ports[portID] else null
    }

    method PollCallback(localPortID: u16, flags: set<Event>)
      modifies this`pollPortID, this`pollEventFlags
      ensures pollPortID == localPortID && pollEventFlags == flags
    {
      pollPortID, pollEventFlags := localPortID, flags;
    }

    // What libzmq would report for a socket: input waiting, or room for output.
    ghost function Pending(socket: string, writable: set<string>): set<Event>
      requires socket in ctx.packages
      reads ctx
    {
      (if ctx.packages[socket] != [] then {PollIn} else {}) + (if socket in writable then {PollOut} else {})
    }

    // Every registered socket is asked for the given events; then one that has
    // some of them pending is reported by its port ID, or none has and the call
    // throws. If several are ready, the last callback wins, in the poller's order.
    method Poll(flags: set<Event>, writable: set<string>) returns (r: Option<(u16, set<Event>)>)
      requires Valid()
      modifies `poller, `pollPortID, `pollEventFlags
      ensures Valid()
      ensures r == None <==> forall i :: i in ports ==> Pending(Socket(i), writable) * flags == {}
      ensures r.Some? ==>
                r.value.0 in ports && r.value.1 == Pending(Socket(r.value.0), writable) * flags && r.value.1 != {}
    {
      hide HubSocket, Print;
      SetFlags(flags);
      var s := Wait(writable);
      if s == None {
        return None;
      }
      PollCallback(poller[s.value].portID, Ready(s.value, writable) * flags);
      r := Some((pollPortID, pollEventFlags));
    }

    // A registered socket with some of the events it was asked for.
    method Wait(writable: set<string>) returns (r: Option<string>)
      requires Valid()
      ensures r == None <==> forall i :: i in ports ==> Pending(Socket(i), writable) * poller[Socket(i)].flags == {}
      ensures r.Some? ==>
                r.value in poller && poller[r.value].portID in ports && r.value == Socket(poller[r.value].portID) &&
                Pending(r.value, writable) * poller[r.value].flags != {}
    {
      hide PortNameToSocketID, PortNameOf, Print, HubSocket;
      assert forall s :: s in poller ==> s in ctx.inboxes;
      var ready := set s | s in poller && Ready(s, writable) * poller[s].flags != {};
      if ready == {} {
        forall i | i in ports
          ensures Pending(Socket(i), writable) * poller[Socket(i)].flags == {}
        {
          assert Socket(i) !in ready;
        }
        return None;
      }
      var s :| s in ready;
      r := Some(s);
    }

    // poller_.modify for every port.
    method SetFlags(flags: set<Event>)
      requires Valid()
      modifies this`poller
      ensures Valid() && poller.Keys == old(poller.Keys)
      ensures forall s :: s in poller ==> poller[s].flags == flags
    {
      hide PortNameToSocketID, PortNameOf, Print;
      var todo := ports.Keys;
      while todo != {}
        invariant todo <= ports.Keys && poller.Keys == old(poller.Keys)
        invariant forall s :: s in poller ==> poller[s].portID == old(poller[s].portID)
        invariant forall s :: s in poller && poller[s].portID !in todo ==> poller[s].flags == flags
        decreases todo
      {
        var i :| i in todo;
        var socket := ports[i].Socket();
        assert socket == Socket(i) && poller[socket].portID == i;
        poller := poller[socket := poller[socket].(flags := flags)];
        todo := todo - {i};
      }
    }

    function Ready(socket: string, writable: set<string>): (r: set<Event>)
      requires ctx.Valid() && socket in ctx.inboxes
      reads ctx
      ensures r == Pending(socket, writable)
    {
      assert ctx.inboxes[socket] == Print(ctx.packages[socket]);
      (if ctx.inboxes[socket] != [] then {PollIn} else {}) + (if socket in writable then {PollOut} else {})
    }

    method Send(localPortID: u16, portSpec: PortSpecification, messages: seq<Message>) returns (outcome: Outcome)
      requires Valid() && AllValid(messages)
      modifies ctx, messages`frame
      ensures Valid() && AllValid(messages)
      ensures var target := HubSocket(portSpec.hubName, portSpec.portID);
              outcome == (if localPortID !in ports then NoLocalPort
                          else if target !in old(ctx.packages) then Unroutable
                          else Sent) &&
              ctx.packages ==
              if outcome.Sent?
              then old(ctx.packages)[target := old(ctx.packages[target]) +
                                     [Package(Socket(localPortID), [""] + old(Frames(messages)))]]
              else old(ctx.packages)
      ensures outcome.Sent? ==> AllUnloaded(messages)
      ensures !outcome.Sent? ==> Snapshot(messages) == old(Snapshot(messages))
    {
      hide Outgoing, Snapshot, AllValid, PortNameOf, PortNameToSocketID, Print;
      var port := FindPort(localPortID);
      if port == null {
        return NoLocalPort;
      }
      var ok := port.Send(portSpec.GetPortName(), messages);
      outcome := if ok then Sent else Unroutable;
    }

    // The port is read without a flag: the call returns once a package is there.
    method Receive(localPortID: u16, portSpec: PortSpecification, messages: seq<Message>) returns (r: HubReceived)
      requires Valid() && AllValid(messages) && Separate(messages) && messages != [] && AllAtZero(messages)
      requires localPortID in ports ==>
                 ctx.packages[Socket(localPortID)] != [] && |ctx.packages[Socket(localPortID)][0].Parts()| <= 10
      modifies ctx, portSpec, messages, Buffers(messages)
      ensures Valid()
      ensures r.NoPort? <==> localPortID !in ports
      ensures r.NoPort? ==> ctx.packages == old(ctx.packages)
      ensures localPortID in ports ==>
                var p := old(ctx.packages[Socket(localPortID)][0]);
                ctx.packages == old(ctx.packages)[Socket(localPortID) := old(ctx.packages[Socket(localPortID)][1..])] &&
                Ending(r.how, p, |messages|, messages[|messages| - 1].capacity) &&
                (r.how.Accepted? ==>
                   AllValid(messages) && Values(messages) == DealtAll(old(Values(messages)), p.frames[1..]))
      ensures !r.NoPort? && !r.how.Accepted? && !r.how.Overrun? ==>
                AllValid(messages) && Values(messages) == old(Values(messages))
      // The name of the sender is parsed whether its package was accepted or malformed.
      ensures !r.NoPort? && !r.how.Overrun? ==>
                var name := if r.how.Accepted? || r.how.Malformed? then r.how.portName else "";
                (r.Got? <==> ParsePortName(name).1.Some?) && portSpec.hubName == ParsePortName(name).0 &&
                portSpec.portID == if r.Got? then ParsePortName(name).1.value else old(portSpec.portID)
      ensures r.NoPort? ==>
                AllValid(messages) && Values(messages) == old(Values(messages)) &&
                portSpec.hubName == old(portSpec.hubName) && portSpec.portID == old(portSpec.portID)
    {
      hide DealtAll, Fits, PortNameOf, ParsePortName, PortNameFromSocketID, PortNameToSocketID, Print,
           HubSocket;
      var port := FindPort(localPortID);
      if port == null {
        return NoPort;
      }
      var how := port.Receive(messages, false);
      var portName := if how.Accepted? || how.Malformed? then how.portName else "";
      ghost var values := Values(messages);
      EmptyName();
      var ok := portSpec.SetPortName(portName);
      assert !how.Overrun? ==> Values(messages) == values;
      r := if ok then Got(how) else BadName(how);
    }
  }

  // A receive that reads no sender leaves the empty name, on which std::stoi throws.
  lemma EmptyName()
    ensures ParsePortName("") == ("", None)
  {
  }
}
