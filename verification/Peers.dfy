/**
 A peer: the object whose methods the users of the network call. Each method is
 tied to the function of module Protocol that says what the operation does.
 */
module Peers {
  import opened Words
  import opened Naming
  import opened Labels
  import opened Messages
  import opened Wire
  import opened Ports
  import opened Hubs
  import opened P = Protocol
  import W = Waiting

  class Peer {
    const id: u16
    const ctx: Context
    const hub: Hub
    const labelMessage: Message
    const recvMessage: Message
    var messageID: u32
    var interfaces: map<u16, Kind>
    var pubMap: map<u16, seq<Contents>>
    ghost var serial: nat

    ghost predicate Valid()
      reads this, hub, ctx, labelMessage, recvMessage
    {
      hub.hubName == PeerIDtoHubName(id) && hub.ctx == ctx && hub.Valid() &&
      labelMessage.Valid() && labelMessage.capacity == LABEL_SIZE && labelMessage.offset == 0 &&
      recvMessage.Valid() && recvMessage.offset == 0 &&
      labelMessage != recvMessage && labelMessage.buffer != recvMessage.buffer &&
      messageID == serial % MOD32
    }

    ghost function State(): PeerState
      reads this, hub, labelMessage, labelMessage.buffer
    {
      PeerState(id, messageID, serial, labelMessage.buffer[..], labelMessage.frame, hub.ports.Keys, interfaces, pubMap)
    }

    // Messages of a caller: not the peer's own label message, nor over its buffer.
    ghost predicate Foreign(messages: seq<Message>) {
      forall i :: 0 <= i < |messages| ==> messages[i] != labelMessage && messages[i].buffer != labelMessage.buffer
    }

    constructor (peerID: u16, recvMessageSize: nat, ctx: Context)
      requires ctx.Idle() && recvMessageSize < MOD64
      ensures Valid() && id == peerID && this.ctx == ctx && recvMessage.capacity == recvMessageSize
      ensures State().Valid() && State().Loaded() && State().serial == 0
      ensures hub.ports == map[] && interfaces == map[] && pubMap == map[]
      ensures fresh(hub) && fresh(labelMessage) && fresh(labelMessage.buffer)
      ensures fresh(recvMessage) && fresh(recvMessage.buffer)
    {
      id, this.ctx := peerID, ctx;
      hub := new Hub(PeerIDtoHubName(peerID), ctx);
      labelMessage := new Message(LABEL_SIZE);
      recvMessage := new Message(recvMessageSize);
      messageID, serial := 0, 0;
      interfaces, pubMap := map[], map[];
      new;
      labelMessage.Resize(LABEL_SIZE, 0);
    }

    // insert keeps an interface that is already there.
    method AddInterface(interfaceID: u16, kind: Kind)
      requires Valid()
      modifies this`interfaces
      ensures Valid()
      ensures interfaces ==
              if interfaceID in old(interfaces) then old(interfaces) else old(interfaces)[interfaceID := kind]
    {
      if interfaceID !in interfaces {
        interfaces := interfaces[interfaceID := kind];
      }
    }

    // Returns false where bind throws because the port's address is in use.
    method AddPort(transport: Transport, flags: set<Event>, localPortID: u16) returns (ok: bool)
      requires Valid() && transport.Inproc?
      modifies hub, ctx
      ensures Valid() && ok == (SocketID(id, localPortID) !in old(ctx.packages))
      ensures ctx.packages == if ok then old(ctx.packages)[SocketID(id, localPortID) := []] else old(ctx.packages)
      ensures State() == if ok then old(State()).(ports := old(hub.ports.Keys) + {localPortID}) else old(State())
    {
      hide HubSocket, Print, Hub.Wired;
      assert hub.Socket(localPortID) == SocketID(id, localPortID);
      ok := hub.AddPort(localPortID, transport, flags);
    }

    // ---------- sending

    // The label goes into the label buffer with this peer as source and the next
    // ID; the package to send is not touched.
    method StampLabel(header: Label, ghost package: seq<Message>)
      requires Valid() && AllValid(package) && Foreign(package)
      modifies this`messageID, this`serial, header, labelMessage.buffer
      ensures Valid() && AllValid(package) && Snapshot(package) == old(Snapshot(package))
      ensures var was := old(header.contents);
              header.contents == Contents(was.messageID, was.kind, Endpoint(id, was.src.port, was.src.iface), was.dest)
      ensures var counter := (old(messageID) + 1) % MOD32;
              State() == old(State()).(counter := counter, serial := old(serial) + 1,
                                       labelBuf := Encode(header.contents.(messageID := counter)))
    {
      hide Encode, HubSocket, PortNameOf, PortNameToSocketID, Print, Hub.Wired, Hub.Valid, Snapshot, AllValid;
      header.SetPeerID(id, Src);
      WriteLabel(Encode(header.contents), LABEL_SIZE);
      NextCounter(serial);
      messageID := (messageID + 1) % MOD32;
      serial := serial + 1;
      // labelContent->messageID_ = messageID_
      WriteLabel(Encode(header.contents.(messageID := messageID)), 4);
      SameBehindID(header.contents, messageID);
      Kept(package);
    }

    // The first n bytes go to the start of the label buffer.
    method WriteLabel(bytes: string, n: nat)
      requires Valid() && n <= |bytes| == LABEL_SIZE
      modifies labelMessage.buffer
      ensures labelMessage.buffer[..] == bytes[..n] + old(labelMessage.buffer[n..])
    {
      Copy(labelMessage.buffer, 0, bytes, n);
    }

    method SendMessages(header: Label, package: seq<Message>) returns (outcome: Outcome)
      requires Valid() && AllValid(package) && Foreign(package)
      modifies this`messageID, this`serial, header, labelMessage`frame, labelMessage.buffer, ctx, package`frame
      ensures Valid() && AllValid(package)
      ensures var r := P.Send(old(State()), old(ctx.packages).Keys, old(header.contents), old(Frames(package)));
              State() == r.peer && header.contents == r.header && outcome == r.outcome &&
              Frames(package) == r.body && ctx.packages == Deliver(old(ctx.packages), r.out)
      ensures ctx.packages.Keys == old(ctx.packages).Keys
    {
      hide Outgoing, Encode, HubSocket, PeerIDtoHubName, Deliver, AllValid, Hub.Wired, Print;
      ghost var was, before, packages := State(), header.contents, ctx.packages;
      ghost var body := Frames(package);
      FramesLength(package);
      StampLabel(header, package);
      assert labelMessage.Contents() == State().labelBuf[..was.labelLen];
      outcome := SendPackage(header.contents, package);
      ghost var r := P.Send(was, packages.Keys, before, body);
      if outcome.Sent? {
        DeliverOne(packages, r.out[0]);
      } else {
        DeliverNone(packages);
      }
    }

    method MakeSpec(dest: Endpoint) returns (spec: PortSpecification)
      ensures fresh(spec) && spec.hubName == PeerIDtoHubName(dest.peer) && spec.portID == dest.port
    {
      spec := new PortSpecification.FromParts(PeerIDtoHubName(dest.peer), dest.port);
    }

    // hub_.Send on label message and package.
    method SendPackage(header: Contents, package: seq<Message>) returns (outcome: Outcome)
      requires Valid() && AllValid(package) && Foreign(package)
      modifies ctx, labelMessage`frame, package`frame
      ensures Valid() && AllValid(package)
      ensures var target, port := SocketID(header.dest.peer, header.dest.port), header.src.port;
              outcome == (if port !in hub.ports then NoLocalPort
                          else if target !in old(ctx.packages) then Unroutable
                          else Sent) &&
              ctx.packages ==
              if outcome.Sent?
              then old(ctx.packages)[target := old(ctx.packages[target]) +
                                     [Package(SocketID(id, port),
                                              ["", old(labelMessage.Contents())] + old(Frames(package)))]]
              else old(ctx.packages)
      ensures State() == if outcome.Sent? then old(State()).(labelLen := 0) else old(State())
      ensures Frames(package) == if outcome.Sent? then Blank(|package|) else old(Frames(package))
    {
      hide Outgoing, Snapshot, AllValid, AllUnloaded, Hub.Valid, HubSocket, PeerIDtoHubName, Hub.Wired;
      FramesBehind(labelMessage, package);
      ghost var frames := Frames([labelMessage] + package);
      assert [""] + frames == ["", labelMessage.Contents()] + Frames(package);
      assert hub.Socket(header.src.port) == SocketID(id, header.src.port);
      var spec := MakeSpec(header.dest);
      Kept([labelMessage] + package);
      outcome := hub.Send(header.src.port, spec, [labelMessage] + package);
      if outcome.Sent? {
        Emptied(labelMessage, package);
      } else {
        Untouched(labelMessage, package, frames);
      }
      assert AllValid(package);
      assert recvMessage in package ==> recvMessage.Valid() by {
        AllValidAt(package, recvMessage);
      }
    }

    method Push(header: Label, package: seq<Message>) returns (outcome: Outcome)
      requires Valid() && AllValid(package) && Foreign(package)
      modifies this`messageID, this`serial, header, labelMessage`frame, labelMessage.buffer, ctx, package`frame
      ensures Valid() && AllValid(package)
      ensures var r := P.Send(old(State()), old(ctx.packages).Keys, old(header.contents), old(Frames(package)));
              State() == r.peer && header.contents == r.header && outcome == r.outcome &&
              Frames(package) == r.body && ctx.packages == Deliver(old(ctx.packages), r.out)
      ensures ctx.packages.Keys == old(ctx.packages).Keys
    {
      hide P.Send, Deliver, Outgoing, Hub.Wired;
      outcome := SendMessages(header, package);
    }

    // ---------- subscriptions

    method Subscribe(header: Label)
      requires Valid()
      modifies this`pubMap
      ensures Valid() && State() == P.Subscribe(old(State()), header.contents)
    {
      hide HubSocket, Hub.Wired;
      var i := header.contents.src.iface;
      if i !in pubMap {
        pubMap := pubMap[i := [header.contents]];
        assert [] + [header.contents] == [header.contents];
      } else {
        pubMap := pubMap[i := pubMap[i] + [header.contents]];
      }
    }

    // A label to work on, beside everything that is there.
    method CopyLabel(c: Contents) returns (header: Label)
      ensures fresh(header) && header.contents == c
    {
      header := new Label.Copy(c);
    }

    // Pushes to the k-th receipt of interface i, which is stamped in place.
    method PushReceipt(i: u16, k: nat, package: seq<Message>) returns (outcome: Outcome)
      requires Valid() && AllValid(package) && Foreign(package) && i in pubMap && k < |pubMap[i]|
      modifies this`messageID, this`serial, this`pubMap, labelMessage`frame, labelMessage.buffer, ctx, package`frame
      ensures Valid() && AllValid(package)
      ensures var p := old(State());
              var r := P.Send(p, old(ctx.packages).Keys, p.subs[i][k], old(Frames(package)));
              State() == r.peer.(subs := p.subs[i := p.subs[i][k := r.header]]) && outcome == r.outcome &&
              Frames(package) == r.body && ctx.packages == Deliver(old(ctx.packages), r.out)
      ensures ctx.packages.Keys == old(ctx.packages).Keys
    {
      hide P.Send, Hub.Valid, Deliver, Outgoing, Hub.Wired, HubSocket, Encode, Print, Snapshot, AllValid;
      var receipt := CopyLabel(pubMap[i][k]);
      Kept(package);
      outcome := Push(receipt, package);
      label Pushed:
      pubMap := pubMap[i := pubMap[i][k := receipt.contents]];
      Kept@Pushed(package);
    }

    // Returns false where a push throws; the receipts behind it get nothing then.
    method Publish(header: Label, package: seq<Message>) returns (ok: bool)
      requires Valid() && AllValid(package) && Foreign(package)
      modifies this`messageID, this`serial, this`pubMap, labelMessage`frame, labelMessage.buffer, ctx, package`frame
      ensures Valid() && AllValid(package)
      ensures var r := P.Publish(old(State()), old(ctx.packages).Keys, header.contents, old(Frames(package)));
              State() == r.peer && ok == r.ok && Frames(package) == r.body &&
              ctx.packages == Deliver(old(ctx.packages), r.out)
    {
      hide P.Send, PublishFrom, Deliver, Outgoing, Hub.Wired, Snapshot, AllValid, Frames;
      var i := header.contents.src.iface;
      DeliverNone(ctx.packages);
      if i !in pubMap {
        return true;
      }
      ghost var bound, packages := ctx.packages.Keys, ctx.packages;
      ghost var whole := PublishFrom(State(), bound, i, 0, Frames(package));
      ghost var sent: seq<Delivery> := [];
      var k := 0;
      assert sent + whole.out == whole.out;
      while k < |pubMap[i]|
        invariant Valid() && AllValid(package) && i in pubMap && k <= |pubMap[i]|
        invariant ctx.packages.Keys == bound && ctx.packages == Deliver(packages, sent)
        invariant Rest(whole, sent, PublishFrom(State(), bound, i, k, Frames(package)))
        decreases |pubMap[i]| - k
      {
        PublishOnce(State(), bound, i, k, Frames(package));
        ghost var r := P.Send(State(), bound, pubMap[i][k], Frames(package));
        ghost var n := |pubMap[i]|;
        var outcome := PushReceipt(i, k, package);
        DeliverMore(packages, sent, r.out);
        if outcome.Unroutable? {
          return false;
        }
        RestNext(whole, sent, r.out, PublishFrom(State(), bound, i, k + 1, Frames(package)));
        sent := sent + r.out;
        k := k + 1;
        assert |pubMap[i]| == n;
      }
      PublishOnce(State(), bound, i, k, Frames(package));
      assert sent + [] == sent;
      ok := true;
    }

    // ---------- receiving

    // The caller's receive messages: distinct, at offset zero, not the peer's own.
    ghost predicate Receivers(package: seq<Message>)
      reads package
    {
      package != [] && AllValid(package) && AllAtZero(package) && Separate(package) && Foreign(package)
    }

    // What waits first at each port can be received into the given messages.
    ghost predicate HeadsFit(package: seq<Message>)
      reads hub, ctx
    {
      forall i :: i in hub.ports && hub.Socket(i) in ctx.packages && ctx.packages[hub.Socket(i)] != [] ==>
        Receivable(ctx.packages[hub.Socket(i)][0], Capacities(package))
    }

    method ReceiveMessages(destPortID: u16, package: seq<Message>) returns (check: Check)
      requires Valid() && Receivers(package) && destPortID in hub.ports
      requires ctx.packages[hub.Socket(destPortID)] != []
      requires Receivable(ctx.packages[hub.Socket(destPortID)][0], Capacities(package))
      modifies ctx, labelMessage, labelMessage.buffer, package, Buffers(package)
      ensures Valid() && Receivers(package)
      ensures W.Taken(old(State()), State(), old(ctx.packages), ctx.packages, hub.Socket(destPortID))
      ensures var head := old(ctx.packages[hub.Socket(destPortID)][0]);
              Values(package) == DealtAll([old(labelMessage.Value())] + old(Values(package)), head.frames[1..])[1..] &&
              check == CheckSource(State().Label(), head.sender)
    {
      hide HubSocket, Decode, Decoded;
      ghost var head := ctx.packages[hub.Socket(destPortID)][0];
      ghost var before := State();
      var address := ReceivePackage(destPortID, package);
      // Label::Contents * labelContents = labelMessage_.buffer()
      var header := Decode(labelMessage.buffer[..]);
      if header.src.port != address.port {
        check := BadPort;
      } else if header.src.peer != address.peer {
        check := BadPeer;
      } else {
        check := Consistent;
      }
    }

    // hub_.Receive into label message and package; the address is what the port
    // specification and HubNametoPeerID make of the sender.
    method ReceivePackage(destPortID: u16, package: seq<Message>) returns (address: Address)
      requires Valid() && Receivers(package) && destPortID in hub.ports
      requires ctx.packages[hub.Socket(destPortID)] != []
      requires Receivable(ctx.packages[hub.Socket(destPortID)][0], Capacities(package))
      modifies ctx, labelMessage, labelMessage.buffer, package, Buffers(package)
      ensures Valid() && Receivers(package)
      ensures W.Taken(old(State()), State(), old(ctx.packages), ctx.packages, hub.Socket(destPortID))
      ensures var head := old(ctx.packages[hub.Socket(destPortID)][0]);
              Values(package) == DealtAll([old(labelMessage.Value())] + old(Values(package)), head.frames[1..])[1..] &&
              Decoded(head.sender) == Some(address)
    {
      hide HubSocket, Hub.Valid, DealtAll, Fits, Hub.Wired, PortNameFromSocketID, ParsePortName,
           HubNametoPeerID, Cut, P.Receive, W.Taken, AllValid, AllAtZero, Separate, Values, Buffers,
           Receivable, Decoded;
      ghost var p, was := State(), ctx.packages;
      PendingInput();
      ghost var head := was[hub.Socket(destPortID)][0];
      var messages := [labelMessage] + package;
      ghost var before := Values(messages);
      SplitReceivers(package);
      FitsBehind(labelMessage, package, head);
      var hubName, portID := TakePackage(destPortID, messages);
      PackageDealt(package, before, head.frames[1..]);
      address := Address(HubNametoPeerID(hubName).value, portID);
      HeadTaken(p, State(), was, ctx.packages, hub.Socket(destPortID));
    }

    // hub_.Receive, and the name it came from.
    method TakePackage(destPortID: u16, messages: seq<Message>) returns (hubName: string, portID: u16)
      requires hub.ctx == ctx && hub.Valid() && destPortID in hub.ports
      requires messages != [] && AllValid(messages) && AllAtZero(messages) && Separate(messages)
      requires ctx.packages[hub.Socket(destPortID)] != []
      requires var p := ctx.packages[hub.Socket(destPortID)][0];
               2 <= |p.frames| <= 9 && p.frames[0] == "" && Decoded(p.sender).Some? &&
               Fits(p.frames[1..], |messages|, messages[|messages| - 1].capacity)
      modifies ctx, messages, Buffers(messages)
      ensures hub.Valid() && AllValid(messages)
      ensures var head := old(ctx.packages[hub.Socket(destPortID)][0]);
              ctx.packages == old(ctx.packages)[hub.Socket(destPortID) :=
                                                old(ctx.packages[hub.Socket(destPortID)][1..])] &&
              Values(messages) == DealtAll(old(Values(messages)), head.frames[1..]) &&
              HubNametoPeerID(hubName).Some? &&
              Decoded(head.sender) == Some(Address(HubNametoPeerID(hubName).value, portID))
    {
      hide HubSocket, DealtAll, Fits, PortNameFromSocketID, ParsePortName, HubNametoPeerID, Print;
      ghost var before := Values(messages);
      var spec := new PortSpecification();
      assert Values(messages) == before by { ValuesKept(messages); }
      var r := hub.Receive(destPortID, spec, messages);
      hubName, portID := spec.hubName, spec.portID;
    }

    // ---------- polling and serving

    method Poll(package: seq<Message>, flags: set<Event>, writable: set<string>) returns (r: Polled)
      requires Valid() && Receivers(package) && HeadsFit(package)
      modifies hub`poller, hub`pollPortID, hub`pollEventFlags
      modifies ctx, labelMessage, labelMessage.buffer, package, Buffers(package)
      ensures Valid() && Receivers(package)
      ensures !r.Took? ==>
                State() == old(State()) && ctx.packages == old(ctx.packages) && Values(package) == old(Values(package))
      ensures flags == {PollIn} ==> r != Unhandled
      ensures r == Timeout <==> forall i :: i in hub.ports ==> old(hub.Pending(hub.Socket(i), writable)) * flags == {}
      ensures r == Unhandled ==>
                exists i :: i in hub.ports && var events := old(hub.Pending(hub.Socket(i), writable)) * flags;
                            events != {} && PollIn !in events
      ensures r.Took? ==>
                r.port in hub.ports && PollIn in flags &&
                W.Taken(old(State()), State(), old(ctx.packages), ctx.packages, hub.Socket(r.port)) &&
                var head := old(ctx.packages)[hub.Socket(r.port)][0];
                Values(package) == DealtAll([old(labelMessage.Value())] + old(Values(package)),
                                            head.frames[1..])[1..] &&
                Decoded(head.sender).Some? && r.check == CheckSource(State().Label(), head.sender)
    {
      hide Hub.Valid, Hub.Wired, Hub.Pending, Receivers, W.Taken, CheckSource, HubSocket, P.Receive, DealtAll,
           Decode, Decoded, Print, Receivable, Capacities;
      PendingInput();
      var polled := PollHub(package, flags, writable);
      if polled == None {
        return Timeout;
      }
      var (port, events) := polled.value;
      if PollIn !in events {
        return Unhandled;
      }
      ReceivableFrames(ctx.packages[hub.Socket(port)][0], Capacities(package));
      var check := ReceiveMessages(port, package);
      r := Took(port, check);
    }

    // Polling the hub changes nothing but the poller.
    method PollHub(ghost package: seq<Message>, flags: set<Event>, writable: set<string>)
      returns (r: Option<(u16, set<Event>)>)
      requires Valid() && Receivers(package)
      modifies hub`poller, hub`pollPortID, hub`pollEventFlags
      ensures Valid() && Receivers(package)
      ensures State() == old(State()) && Values(package) == old(Values(package)) &&
              labelMessage.Value() == old(labelMessage.Value())
      ensures r == None <==> forall i :: i in hub.ports ==> hub.Pending(hub.Socket(i), writable) * flags == {}
      ensures r.Some? ==>
                r.value.0 in hub.ports && r.value.1 == hub.Pending(hub.Socket(r.value.0), writable) * flags &&
                r.value.1 != {} &&
                (PollIn in r.value.1 ==> ctx.packages[hub.Socket(r.value.0)] != [])
      ensures flags == {PollIn} && r.Some? ==> r.value.1 == {PollIn}
    {
      hide HubSocket, PortNameOf, PortNameToSocketID, Print;
      r := hub.Poll(flags, writable);
    }

    // With input asked for, every poll ends in a package or in a timeout.
    method GetPendingPackage(header: Label, package: seq<Message>) returns (r: Polled)
      requires Valid() && Receivers(package) && HeadsFit(package)
      modifies hub`poller, hub`pollPortID, hub`pollEventFlags
      modifies header, ctx, labelMessage, labelMessage.buffer, package, Buffers(package)
      ensures Valid() && Receivers(package)
      ensures r.Timeout? || r.Took?
      ensures r.Timeout? ==>
                State() == old(State()) && ctx.packages == old(ctx.packages) &&
                Values(package) == old(Values(package)) &&
                header.contents == old(header.contents)
      ensures r.Timeout? <==> old(NothingWaits())
      ensures r.Took? ==>
                r.port in hub.ports &&
                W.Taken(old(State()), State(), old(ctx.packages), ctx.packages, hub.Socket(r.port)) &&
                header.contents == State().Label() &&
                var head := old(ctx.packages)[hub.Socket(r.port)][0];
                Values(package) == DealtAll([old(labelMessage.Value())] + old(Values(package)),
                                            head.frames[1..])[1..] &&
                Decoded(head.sender).Some? && r.check == CheckSource(State().Label(), head.sender)
    {
      hide HubSocket, Hub.Valid, Receivers, HeadsFit, W.Taken, P.Receive, DealtAll, Decode, Decoded, Print,
           Receivable, Capacities, Hub.Wired, CheckSource, Hub.Pending;
      PendingInput();
      r := Poll(package, {PollIn}, {});
      if r.Took? {
        header.contents := Decode(labelMessage.buffer[..]);
      }
    }

    ghost predicate NothingWaits()
      reads hub, ctx
    {
      forall i :: i in hub.ports && hub.Socket(i) in ctx.packages ==> ctx.packages[hub.Socket(i)] == []
    }

    lemma PendingInput()
      requires Valid()
      ensures forall i :: i in hub.ports ==> hub.Socket(i) in ctx.packages
      ensures (forall i :: i in hub.ports ==> hub.Pending(hub.Socket(i), {}) * {PollIn} == {}) <==> NothingWaits()
    {
      hide HubSocket, Print;
      forall i | i in hub.ports
        ensures hub.Socket(i) in ctx.packages &&
                (hub.Pending(hub.Socket(i), {}) * {PollIn} == {} <==> ctx.packages[hub.Socket(i)] == [])
      {
        var pending := hub.Pending(hub.Socket(i), {});
        assert PollIn in pending <==> PollIn in pending * {PollIn};
      }
    }

    // The reply interface: with Pass, the label is turned round and the return
    // package, which the handler has filled, is pushed.
    method HandleReply(header: Label, verdict: Verdict) returns (outcome: Outcome)
      requires Valid() && forall i :: 0 <= i < |verdict.reply| ==> |verdict.reply[i]| < MOD64
      modifies this`messageID, this`serial, header, labelMessage`frame, labelMessage.buffer, ctx
      ensures Valid()
      ensures !verdict.pass ==> State() == old(State()) && ctx.packages == old(ctx.packages) && outcome == Sent
      ensures verdict.pass ==>
                var r := P.Send(old(State()), old(ctx.packages).Keys, old(header.contents).Swapped(), verdict.reply);
                State() == r.peer && outcome == r.outcome && ctx.packages == Deliver(old(ctx.packages), r.out)
      ensures recvMessage.Value() == old(recvMessage.Value())
    {
      hide P.Send, Deliver, Outgoing, Hub.Wired, HubSocket, Print;
      if !verdict.pass {
        return Sent;
      }
      var returnPackage := FillReturn(verdict.reply);
      ghost var wire := Snapshot(returnPackage);
      header.Swap();
      assert Snapshot(returnPackage) == wire;
      outcome := Push(header, returnPackage);
    }

    // What the user's handler does to fill the return package.
    method FillReturn(reply: seq<string>) returns (package: seq<Message>)
      requires Valid() && forall i :: 0 <= i < |reply| ==> |reply[i]| < MOD64
      ensures Valid() && State() == old(State())
      ensures AllValid(package) && Frames(package) == reply && Foreign(package)
      ensures forall i :: 0 <= i < |package| ==> fresh(package[i]) && fresh(package[i].buffer)
    {
      hide Outgoing, HubSocket, PortNameOf, PortNameToSocketID, Print, Frames;
      package := LoadAll(reply);
    }

    // The subscription interface: with Pass, the turned label is recorded.
    method HandleSubscription(header: Label, pass: bool)
      requires Valid()
      modifies this`pubMap, header
      ensures Valid()
      ensures State() == if pass then P.Subscribe(old(State()), old(header.contents).Swapped()) else old(State())
    {
      hide HubSocket, Hub.Wired, P.Subscribe, Print;
      if pass {
        header.Swap();
        Subscribe(header);
      }
    }

    // Takes one package, if one waits, and hands it to the interface its label
    // names. The outcome of the user's handler is `verdict`. A reply that cannot be
    // routed throws out of the call; the outcome says so.
    method ServiceInterfaces(verdict: Verdict) returns (r: Option<(u16, Fate, Outcome)>)
      requires Valid() && HeadsFit([recvMessage])
      requires forall i :: 0 <= i < |verdict.reply| ==> |verdict.reply[i]| < MOD64
      modifies this`messageID, this`serial, this`pubMap, hub`poller, hub`pollPortID, hub`pollEventFlags
      modifies ctx, labelMessage, labelMessage.buffer, recvMessage, recvMessage.buffer
      ensures Valid()
      ensures r == None <==> old(NothingWaits())
      ensures r == None ==> State() == old(State()) && ctx.packages == old(ctx.packages)
      ensures r.Some? ==>
                r.value.0 in hub.ports &&
                Served(old(State()), State(), old(ctx.packages), ctx.packages, hub.Socket(r.value.0), verdict,
                       r.value.1, r.value.2) &&
                [recvMessage.Value()] ==
                  DealtAll([old(labelMessage.Value())] + [old(recvMessage.Value())],
                           old(ctx.packages)[hub.Socket(r.value.0)][0].frames[1..])[1..]
    {
      hide CheckSource, Hub.Pending, HeadsFit, Hub.Valid, W.Taken, Receivers, P.Send, P.Receive, Deliver,
           DealtAll, Decode, Decoded, Hub.Wired, HubSocket, Print, Receivable, P.Subscribe, P.Dispatch,
           Served;
      ghost var p, was := State(), ctx.packages;
      var header := NewLabel();
      OwnReceiver();
      var polled := GetPendingPackage(header, [recvMessage]);
      if polled.Timeout? {
        return None;
      }
      ghost var q, now := State(), ctx.packages;
      OwnReceiver();
      var fate, outcome := Dispatch(header, verdict);
      ServedAfter(p, q, was, now, hub.Socket(polled.port), verdict);
      r := Some((polled.port, fate, outcome));
    }

    method NewLabel() returns (header: Label)
      requires Valid() && HeadsFit([recvMessage])
      ensures fresh(header) && Valid() && State() == old(State()) && HeadsFit([recvMessage])
      ensures recvMessage.Value() == old(recvMessage.Value()) && labelMessage.Value() == old(labelMessage.Value())
      ensures NothingWaits() == old(NothingWaits())
    {
      hide HubSocket, Print, Receivable;
      header := new Label();
    }

    lemma OwnReceiver()
      requires Valid()
      ensures Receivers([recvMessage]) && Values([recvMessage]) == [recvMessage.Value()]
      ensures Buffers([recvMessage]) == {recvMessage.buffer}
    {
      hide HubSocket, Hub.Wired;
    }

    // interface->HandleIncomingMessage for the interface the label names.
    method Dispatch(header: Label, verdict: Verdict) returns (fate: Fate, outcome: Outcome)
      requires Valid() && header.contents == State().Label()
      requires forall i :: 0 <= i < |verdict.reply| ==> |verdict.reply[i]| < MOD64
      modifies this`messageID, this`serial, this`pubMap, header, labelMessage`frame, labelMessage.buffer, ctx
      ensures Valid() && recvMessage.Value() == old(recvMessage.Value())
      ensures var s := P.Dispatch(old(State()), old(ctx.packages).Keys, verdict);
              State() == s.peer && fate == s.fate && outcome == s.outcome &&
              ctx.packages == Deliver(old(ctx.packages), s.out)
    {
      hide P.Send, Deliver, Decode, Hub.Wired, HubSocket, Print, P.Subscribe;
      DeliverNone(ctx.packages);
      var i := header.contents.dest.iface;
      outcome := Sent;
      if i !in interfaces {
        return UnknownInterface, Sent;
      }
      match interfaces[i] {
        case Pull =>
        case Reply =>
          outcome := HandleReply(header, verdict);
        case Subscription =>
          HandleSubscription(header, verdict.pass);
      }
      fate := Handled(i, verdict.pass);
    }

    // ---------- requests

    // Whatever waits at this peer's ports can be received into the messages.
    ghost predicate AllFit(package: seq<Message>)
      reads hub, ctx
    {
      FitIn(ctx.packages, hub.hubName, hub.ports.Keys, Capacities(package))
    }

    // One package of somebody else reaches an inbox.
    method OneArrives(d: Delivery, ghost package: seq<Message>)
      requires Valid() && AllFit(package) && d.target in ctx.packages && Receivable(d.package, Capacities(package))
      modifies ctx
      ensures Valid() && AllFit(package)
      ensures ctx.packages == Deliver(old(ctx.packages), [d]) && ctx.packages.Keys == old(ctx.packages).Keys
    {
      hide HubSocket, Print, Receivable, Deliver;
      DeliverOne(ctx.packages, d);
      ctx.Arrive(d.target, d.package);
    }

    // The rest of the network puts packages into inboxes while this peer waits.
    method Others(out: seq<Delivery>, ghost package: seq<Message>)
      requires Valid() && AllFit(package) && W.Fitting(out, ctx.packages.Keys, Capacities(package))
      modifies ctx
      ensures Valid() && AllFit(package)
      ensures ctx.packages == Deliver(old(ctx.packages), out) && ctx.packages.Keys == old(ctx.packages).Keys
    {
      hide HubSocket, Print, Receivable, Deliver, Valid, AllFit;
      ghost var was := ctx.packages;
      DeliverNone(was);
      for k := 0 to |out|
        invariant Valid() && AllFit(package) && ctx.packages.Keys == was.Keys
        invariant ctx.packages == Deliver(was, out[..k])
      {
        DeliverMore(was, out[..k], [out[k]]);
        assert out[..k + 1] == out[..k] + [out[k]];
        OneArrives(out[k], package);
      }
      assert out[..|out|] == out;
    }

    // One turn of the request loop: others may send, then this peer polls.
    method AwaitTurn(package: seq<Message>, out: seq<Delivery>) returns (r: Polled)
      requires Valid() && Receivers(package) && AllFit(package)
      requires W.Fitting(out, ctx.packages.Keys, Capacities(package))
      modifies hub`poller, hub`pollPortID, hub`pollEventFlags
      modifies ctx, labelMessage, labelMessage.buffer, package, Buffers(package)
      ensures Valid() && Receivers(package) && AllFit(package)
      ensures ctx.packages.Keys == old(ctx.packages).Keys
      ensures r.Timeout? || r.Took?
      ensures r.Timeout? ==>
                State() == old(State()) && Values(package) == old(Values(package)) &&
                ctx.packages == Deliver(old(ctx.packages), out) && NothingWaits()
      ensures r.Took? ==>
                r.port in hub.ports &&
                var before, socket := Deliver(old(ctx.packages), out), hub.Socket(r.port);
                W.Taken(old(State()), State(), before, ctx.packages, socket) &&
                Receivable(before[socket][0], Capacities(package)) &&
                Values(package) == DealtBodies(old(Values(package)), before[socket][0].frames[1..])
    {
      hide HubSocket, P.Receive, DealtAll, DealtBodies, Decode, Decoded, Print, Receivable, Capacities, CheckSource,
           Hub.Pending, Deliver, FitIn, Hub.Wired, Hub.Valid, Receivers, W.Fitting, W.Taken;
      ghost var values, header := Values(package), labelMessage.Value();
      ghost var before := SendOthers(package, out);
      PendingInput();
      ghost var p := State();
      r := Poll(package, {PollIn}, {});
      if r.Took? {
        StillFits(p, State(), before, ctx.packages, hub.hubName, r.port, hub.ports.Keys, Capacities(package));
        DealtBehindLabel(header, values, before[hub.Socket(r.port)][0].frames[1..]);
      }
    }

    method SendOthers(package: seq<Message>, out: seq<Delivery>) returns (ghost before: map<string, seq<Package>>)
      requires Valid() && Receivers(package) && AllFit(package) &&
               W.Fitting(out, ctx.packages.Keys, Capacities(package))
      modifies ctx
      ensures Valid() && Receivers(package) && AllFit(package) && HeadsFit(package)
      ensures State() == old(State()) && ctx.packages.Keys == old(ctx.packages).Keys
      ensures Values(package) == old(Values(package)) && labelMessage.Value() == old(labelMessage.Value())
      ensures before == ctx.packages == Deliver(old(ctx.packages), out)
    {
      hide HubSocket, Print, Receivable, Deliver, Hub.Wired;
      Others(out, package);
      before := ctx.packages;
    }

    // One turn, with what it adds to the account of the loop.
    method AccountedTurn(package: seq<Message>, wait: int, out: seq<Delivery>, ghost s: W.Setting, ghost l: W.Loop)
      returns (r: Polled, ghost next: W.Loop)
      requires Valid() && Receivers(package) && AllFit(package)
      requires W.Fitting(out, ctx.packages.Keys, Capacities(package))
      requires W.Going(s, l) && Now(l, package) && hub.ports.Keys == s.start.ports && id == s.start.id
      requires Capacities(package) == W.Sizes(s.values)
      requires out == s.arrivals(|l.turns|) && W.WaitFits(wait, |l.turns|, s.clock, s.timeout)
      modifies hub`poller, hub`pollPortID, hub`pollEventFlags
      modifies ctx, labelMessage, labelMessage.buffer, package, Buffers(package)
      ensures Valid() && Receivers(package) && AllFit(package) && ctx.packages.Keys == old(ctx.packages).Keys
      ensures Now(next, package) && hub.ports == old(hub.ports)
      ensures labelMessage.buffer.Length == LABEL_SIZE
      ensures r.Timeout? || r.Took?
      ensures r.Timeout? ==> NothingWaits() && W.Ended(s, next, W.PollThrew)
      ensures r.Took? ==> |next.turns| == |l.turns| + 1
      ensures r.Took? ==>
                if State().Label().messageID == s.start.counter then W.Ended(s, next, W.Accepted) else W.Going(s, next)
    {
      hide HubSocket, W.Ended, W.Going, W.Fitting, W.WaitFits, W.Taken, W.Sizes, FitIn, Deliver, Receivable, Print,
           Hub.Wired, Hub.Valid, P.Receive, Decode, Capacities, Receivers, AllFit, DealtBodies;
      r := AwaitTurn(package, out);
      if r.Timeout? {
        next := W.WaitMade(s, l, wait, Capacities(package));
      } else {
        next := W.TurnMade(s, l, r.port, State(), Values(package), ctx.packages, wait, Capacities(package));
      }
    }

    // The account is up to date with peer, messages and network.
    ghost predicate Now(l: W.Loop, package: seq<Message>)
      reads this, hub, ctx, labelMessage, labelMessage.buffer, package, Buffers(package)
    {
      l.peer == State() && l.values == Values(package) && l.now == ctx.packages
    }

    lemma SizesAre(package: seq<Message>)
      requires Receivers(package)
      ensures Capacities(package) == W.Sizes(Values(package))
    {
      ValuesShape(package);
    }

    lemma Starting(s: W.Setting)
      requires Valid() && s.start == State() && s.was == ctx.packages
      ensures W.Going(s, W.Loop(s.start, s.values, s.was, [], []))
    {
      hide HubSocket, W.Going, Print, Hub.Wired;
      PendingInput();
      W.Starts(s);
    }

    // Waits for a package that leaves the current counter as ID in the label buffer, and
    // drops every other one. clock(k) is the clock's k-th reading, left(k) how many packages are
    // still to come in the same millisecond, arrivals(k) what others send during
    // the k-th wait. What a user supplied, the caller's package, is received into.
    method RequestImpl(package: seq<Message>, timeout: int, clock: nat -> int, left: nat -> nat,
                       arrivals: nat -> seq<Delivery>)
      returns (end: W.RequestEnd, ghost l: W.Loop)
      requires Valid() && Receivers(package) && AllFit(package)
      requires forall k: nat :: W.Advances(clock, left, k)
      requires forall k: nat :: W.Fitting(arrivals(k), ctx.packages.Keys, Capacities(package))
      modifies hub`poller, hub`pollPortID, hub`pollEventFlags
      modifies ctx, labelMessage, labelMessage.buffer, package, Buffers(package)
      ensures Valid() && Receivers(package) && ctx.packages.Keys == old(ctx.packages).Keys
      ensures Now(l, package)
      ensures var s := W.Setting(old(State()), old(Values(package)), old(ctx.packages), arrivals, clock, timeout);
              W.Ended(s, l, end)
      ensures end.PollThrew? ==> NothingWaits()
    {
      hide Peer.Valid, HubSocket, W.Accounted, W.Ended, W.Going, W.Fitting, W.Taken, FitIn, Deliver,
           Receivable, Print, Hub.Wired, Hub.Valid, P.Receive, Decode, Capacities, Receivers, AllFit;
      ghost var s := W.Setting(State(), Values(package), ctx.packages, arrivals, clock, timeout);
      l := W.Loop(State(), Values(package), ctx.packages, [], []);
      var startTime := clock(0);
      var currTimeout, elapsedTimeout := timeout, timeout;
      var n: nat := 0;
      Starting(s);
      SizesAre(package);
      while elapsedTimeout <= timeout
        invariant Valid() && Receivers(package) && AllFit(package) && ctx.packages.Keys == s.was.Keys
        invariant W.Going(s, l) && Now(l, package) && |l.turns| == n
        invariant hub.ports.Keys == s.start.ports && messageID == s.start.counter
        invariant clock(n) >= clock(0) && currTimeout == timeout - (clock(n) - clock(0))
        invariant elapsedTimeout == if n == 0 then timeout else clock(n) - clock(0)
        decreases n == 0, timeout - (clock(n) - clock(0)), left(n)
      {
        var polled;
        polled, l := AccountedTurn(package, currTimeout, arrivals(n), s, l);
        if polled.Timeout? {
          return W.PollThrew, l;
        }
        // auto header = labelMessage_.buffer()
        var header := Decode(labelMessage.buffer[..]);
        if header.messageID == messageID {
          return W.Accepted, l;
        }
        assert W.Advances(clock, left, n);
        n := n + 1;
        var currTime := clock(n);
        elapsedTimeout := currTime - startTime;
        currTimeout := timeout - elapsedTimeout;
      }
      W.TimeIsUp(s, l);
      end := W.OutOfTime;
    }

    // Sends the request and waits for its ID to show up in the label buffer. A request that
    // cannot be routed throws before it waits.
    method Request(header: Label, sendPackage: seq<Message>, recvPackage: seq<Message>, timeout: int,
                   clock: nat -> int, left: nat -> nat, arrivals: nat -> seq<Delivery>)
      returns (outcome: Outcome, end: Option<W.RequestEnd>, ghost values: seq<MessageValue>, ghost l: W.Loop)
      requires Valid() && AllValid(sendPackage) && Foreign(sendPackage) && Receivers(recvPackage)
      requires FitIn(Deliver(ctx.packages,
                             P.Send(State(), ctx.packages.Keys, header.contents, Frames(sendPackage)).out),
                     hub.hubName, hub.ports.Keys, Capacities(recvPackage))
      requires forall k: nat :: W.Advances(clock, left, k)
      requires forall k: nat :: W.Fitting(arrivals(k), ctx.packages.Keys, Capacities(recvPackage))
      modifies this`messageID, this`serial, header, labelMessage, labelMessage.buffer, ctx, sendPackage`frame
      modifies hub`poller, hub`pollPortID, hub`pollEventFlags, recvPackage, Buffers(recvPackage)
      ensures Valid() && ctx.packages.Keys == old(ctx.packages).Keys
      ensures var r := P.Send(old(State()), old(ctx.packages).Keys, old(header.contents), old(Frames(sendPackage)));
              var after := Deliver(old(ctx.packages), r.out);
              header.contents == r.header && outcome == r.outcome && (end == None <==> outcome.Unroutable?) &&
              (end == None ==> State() == r.peer && ctx.packages == after) &&
              (end.Some? ==>
                 Now(l, recvPackage) &&
                 W.Ended(W.Setting(r.peer, values, after, arrivals, clock, timeout), l, end.value) &&
                 (end.value.PollThrew? ==> NothingWaits()))
      // The send itself touches a message to receive into only if it is sent as well.
      ensures |values| == |recvPackage| && forall i :: 0 <= i < |recvPackage| ==>
                var was := old(recvPackage[i].Value());
                values[i] == if recvPackage[i] in sendPackage then was.(frame := values[i].frame) else was
    {
      hide Hub.Valid, P.Send, Deliver, Outgoing, HubSocket, W.Ended, W.Fitting, FitIn, Receivable, Print, Hub.Wired,
           Capacities;
      outcome := Push(header, sendPackage);
      values := Values(recvPackage);
      forall i | 0 <= i < |recvPackage|
        ensures var was := old(recvPackage[i].Value());
                values[i] == if recvPackage[i] in sendPackage then was.(frame := values[i].frame) else was
      {
        assert recvPackage[i].buffer != labelMessage.buffer;
      }
      if outcome.Unroutable? {
        end := None;
        l := W.Loop(State(), values, ctx.packages, [], []);
        return;
      }
      var e;
      e, l := RequestImpl(recvPackage, timeout, clock, left, arrivals);
      end := Some(e);
    }

    lemma SplitReceivers(package: seq<Message>)
      requires Valid() && Receivers(package)
      ensures var messages := [labelMessage] + package;
              messages != [] && AllValid(messages) && AllAtZero(messages) && Separate(messages) &&
              Values(messages) == [labelMessage.Value()] + Values(package) && |Values(messages)| == |messages| &&
              Buffers(messages) == {labelMessage.buffer} + Buffers(package) &&
              forall i :: 0 <= i < |messages| ==> Values(messages)[i].offset == 0
    {
      hide Hub.Wired, HubSocket;
    }

    // After a package has been dealt out, the label buffer starts with its label, and
    // the caller's messages have their shares.
    lemma PackageDealt(package: seq<Message>, before: seq<MessageValue>, frames: seq<string>)
      requires AllValid([labelMessage] + package) && |before| == |package| + 1 && package != [] && frames != []
      requires |before[0].data| == LABEL_SIZE && forall i :: 0 <= i < |before| ==> before[i].offset == 0
      requires Values([labelMessage] + package) == DealtAll(before, frames)
      ensures labelMessage.Valid() && AllValid(package) && AllAtZero(package)
      ensures var label0 := Cut(frames[0], LABEL_SIZE);
              labelMessage.Value() == MessageValue(label0 + before[0].data[|label0|..], |label0|, 0, |label0|)
      ensures Values(package) == DealtAll(before, frames)[1..]
      ensures recvMessage in package ==> recvMessage.Valid() && recvMessage.offset == 0
    {
      hide Cut, Load, DealtAll;
      SplitValues(package, before, frames);
      assert [before[0]] + before[1..] == before;
      LabelDealt(before[0], before[1..], frames);
      LoadIs(before[0], Cut(frames[0], LABEL_SIZE));
      DealtOffsets(before, frames);
      AtZero([labelMessage] + package);
      assert forall i :: 0 <= i < |package| ==> ([labelMessage] + package)[i + 1] == package[i];
    }

    lemma SplitValues(package: seq<Message>, before: seq<MessageValue>, frames: seq<string>)
      requires AllValid([labelMessage] + package) && |before| == |package| + 1
      requires Values([labelMessage] + package) == DealtAll(before, frames)
      ensures labelMessage.Valid() && AllValid(package)
      ensures labelMessage.Value() == DealtAll(before, frames)[0] && Values(package) == DealtAll(before, frames)[1..]
    {
      hide Dealt;
      var messages := [labelMessage] + package;
      assert messages[0] == labelMessage;
      assert forall i :: 0 <= i < |package| ==> messages[i + 1] == package[i];
      forall i | 0 <= i < |package|
        ensures Values(package)[i] == DealtAll(before, frames)[i + 1]
      {
        assert Values(messages)[i + 1] == messages[i + 1].Value();
      }
    }
  }

  // How a poll ended: nothing in time, an event that is not input, or a package.
  datatype Polled = Timeout | Unhandled | Took(port: u16, check: Check)

  ghost predicate FitIn(packages: map<string, seq<Package>>, hubName: string, ports: set<u16>, capacities: seq<nat>) {
    forall i, k :: i in ports && HubSocket(hubName, i) in packages && 0 <= k < |packages[HubSocket(hubName, i)]| ==>
      Receivable(packages[HubSocket(hubName, i)][k], capacities)
  }

  lemma HeadTaken(p: PeerState, q: PeerState, was: map<string, seq<Package>>, now: map<string, seq<Package>>, s: string)
    requires s in was && was[s] != [] && |was[s][0].frames| >= 2 && |p.labelBuf| == LABEL_SIZE
    requires now == was[s := was[s][1..]]
    requires var label0 := Cut(was[s][0].frames[1], LABEL_SIZE);
             q == p.(labelBuf := label0 + p.labelBuf[|label0|..], labelLen := |label0|)
    ensures W.Taken(p, q, was, now, s)
  {
  }

  lemma StillFits(p: PeerState, q: PeerState, was: map<string, seq<Package>>, now: map<string, seq<Package>>,
                  hubName: string, port: u16, ports: set<u16>, capacities: seq<nat>)
    requires FitIn(was, hubName, ports, capacities) && port in ports
    requires W.Taken(p, q, was, now, HubSocket(hubName, port))
    ensures FitIn(now, hubName, ports, capacities) && now.Keys == was.Keys
    ensures HubSocket(hubName, port) in was && was[HubSocket(hubName, port)] != []
    ensures Receivable(was[HubSocket(hubName, port)][0], capacities) && |was[HubSocket(hubName, port)][0].frames| >= 2
  {
    hide Receivable, HubSocket, P.Receive;
    forall i, k | i in ports && HubSocket(hubName, i) in now && 0 <= k < |now[HubSocket(hubName, i)]|
      ensures Receivable(now[HubSocket(hubName, i)][k], capacities)
    {
      HubSocketInjective(hubName, i, port);
      if i == port {
        assert now[HubSocket(hubName, i)][k] == was[HubSocket(hubName, i)][k + 1];
      }
    }
  }

  // The head of inbox s was received and served by the peer in state p.
  ghost predicate Served(p: PeerState, q: PeerState, was: map<string, seq<Package>>, now: map<string, seq<Package>>,
                         s: string, verdict: Verdict, fate: Fate, outcome: Outcome)
  {
    s in was && was[s] != [] && |was[s][0].frames| >= 2 && |p.labelBuf| == LABEL_SIZE &&
    var r := P.Serve(p, was.Keys, was[s][0], verdict);
    q == r.peer && fate == r.fate && outcome == r.outcome && now == Deliver(was[s := was[s][1..]], r.out)
  }

  lemma ServedAfter(p: PeerState, q: PeerState, was: map<string, seq<Package>>, now: map<string, seq<Package>>,
                    s: string, verdict: Verdict)
    requires W.Taken(p, q, was, now, s) && |q.labelBuf| == LABEL_SIZE && q.labelLen <= LABEL_SIZE
    ensures var r := P.Dispatch(q, now.Keys, verdict);
            Served(p, r.peer, was, Deliver(now, r.out), s, verdict, r.fate, r.outcome)
  {
    hide P.Receive, P.Dispatch, Deliver;
    assert now.Keys == was.Keys;
  }

  lemma FitsBehind(label0: Message, package: seq<Message>, p: Package)
    requires package != [] && Receivable(p, Capacities(package))
    ensures var messages := [label0] + package;
            2 <= |p.frames| <= 9 && p.frames[0] == "" && Decoded(p.sender).Some? &&
            Fits(p.frames[1..], |messages|, messages[|messages| - 1].capacity)
  {
    hide Fits, Decoded;
    assert Capacities(package)[|package| - 1] == package[|package| - 1].capacity;
  }

  // The label message of a longer list is given the first frame.
  lemma LabelDealt(v: MessageValue, rest: seq<MessageValue>, frames: seq<string>)
    requires rest != [] && frames != []
    ensures DealtAll([v] + rest, frames)[0] == Load(v, Cut(frames[0], |v.data|))
  {
    hide Load, Cut;
    assert ([v] + rest)[0] == v;
  }

  lemma DealtOffsets(before: seq<MessageValue>, frames: seq<string>)
    requires forall i :: 0 <= i < |before| ==> before[i].offset == 0
    ensures forall i :: 0 <= i < |before| ==> DealtAll(before, frames)[i].offset == 0
  {
    hide Share;
  }

  lemma AtZero(messages: seq<Message>)
    requires forall i :: 0 <= i < |messages| ==> Values(messages)[i].offset == 0
    ensures AllAtZero(messages)
  {
    forall i | 0 <= i < |messages|
      ensures messages[i].offset == 0
    {
      assert Values(messages)[i].offset == 0;
    }
  }

  // Of the whole publish, `sent` is done and `rest` is to come.
  ghost predicate Rest(whole: PublishResult, sent: seq<Delivery>, rest: PublishResult) {
    whole == rest.(out := sent + rest.out)
  }

  lemma RestNext(whole: PublishResult, sent: seq<Delivery>, out: seq<Delivery>, rest: PublishResult)
    requires Rest(whole, sent, rest.(out := out + rest.out))
    ensures Rest(whole, sent + out, rest)
  {
    assert sent + (out + rest.out) == sent + out + rest.out;
  }

  // Writing another ID changes only the four bytes of the ID.
  lemma SameBehindID(c: Contents, id: u32)
    ensures Encode(c.(messageID := id))[4..] == Encode(c)[4..]
    ensures Encode(c.(messageID := id)) == Encode(c.(messageID := id))[..4] + Encode(c)[4..]
  {
    hide Put16, PutEndpoint;
    var rest := Put16(c.kind) + PutEndpoint(c.src) + PutEndpoint(c.dest) + [0 as char, 0 as char];
    assert Encode(c) == (Put16(c.messageID % MOD16) + Put16(c.messageID / MOD16)) + rest;
    assert Encode(c.(messageID := id)) == (Put16(id % MOD16) + Put16(id / MOD16)) + rest;
  }
}
