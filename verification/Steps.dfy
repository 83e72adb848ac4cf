/**
 The methods of class Peer are the steps of the network. A network that is put together
 from new peers is the start of a run; each call of a peer is a step of the world that
 shows it, and the next world shows that peer and every other one.
 */
module Steps {
  import opened Words
  import opened Naming
  import opened Labels
  import opened Messages
  import opened Wire
  import opened Ports
  import opened Hubs
  import opened Protocol
  import opened Network
  import W = Waiting
  import Pe = Peers

  // ---------- steps on values

  // Between two worlds only peer p may have changed.
  ghost predicate OthersKept(w: World, v: World, p: u16) {
    v.Bound() == w.Bound() && forall q :: q in w.peers && q != p ==> q in v.peers && v.peers[q] == w.peers[q]
  }

  lemma PushStep(w: World, a: Action)
    requires a.DoPush? && a.peer in w.peers && w.peers[a.peer].Valid() && w.mail.Valid()
    ensures var r := Send(w.peers[a.peer], w.Bound(), a.header, a.body);
            Enabled(w, a) && Next(w, a).peers == w.peers[a.peer := r.peer] &&
            Next(w, a).mail.Valid() && Next(w, a).Bound() == w.Bound() &&
            Inboxes(Next(w, a).mail) == Deliver(Inboxes(w.mail), r.out)
  {
    hide Send, PostAll, Deliver, Truthful, SocketID;
    var p := w.peers[a.peer];
    var r := Send(p, w.Bound(), a.header, a.body);
    SendEmits(p, w.Bound(), a.header, a.body);
    TargetsBound(p, r.peer, r.out, w.Bound());
    PostAllDelivers(w.mail, a.peer, r.out);
  }

  lemma PublishStep(w: World, a: Action)
    requires a.DoPublish? && a.peer in w.peers && w.peers[a.peer].Valid() && w.mail.Valid()
    ensures var r := Publish(w.peers[a.peer], w.Bound(), a.header, a.body);
            Enabled(w, a) && Next(w, a).peers == w.peers[a.peer := r.peer] &&
            Next(w, a).mail.Valid() && Next(w, a).Bound() == w.Bound() &&
            Inboxes(Next(w, a).mail) == Deliver(Inboxes(w.mail), r.out)
  {
    hide PublishFrom, PostAll, Deliver, Truthful, SocketID;
    var p := w.peers[a.peer];
    var r := Publish(p, w.Bound(), a.header, a.body);
    if a.header.src.iface in p.subs {
      PublishEmits(p, w.Bound(), a.header.src.iface, 0, a.body);
      TargetsBound(p, r.peer, r.out, w.Bound());
    }
    PostAllDelivers(w.mail, a.peer, r.out);
  }

  // The peer can take the head of one of its inboxes.
  ghost predicate CanTake(w: World, a: Action) {
    Takes(a) && a.peer in w.peers && w.peers[a.peer].Valid() && w.mail.Valid() && a.port in w.peers[a.peer].ports &&
    var s := SocketID(a.peer, a.port);
    s in Inboxes(w.mail) && Inboxes(w.mail)[s] != [] && Receivable(Inboxes(w.mail)[s][0], a.capacities)
  }

  lemma ServeStep(w: World, a: Action)
    requires a.DoServe? && CanTake(w, a)
    ensures var was, s := Inboxes(w.mail), SocketID(a.peer, a.port);
            |was[s][0].frames| >= 2 &&
            var r := Serve(w.peers[a.peer], w.Bound(), was[s][0], a.verdict);
            Enabled(w, a) && Next(w, a).peers == w.peers[a.peer := r.peer] &&
            Next(w, a).mail.Valid() && Next(w, a).Bound() == w.Bound() &&
            Inboxes(Next(w, a).mail) == Deliver(was[s := was[s][1..]], r.out)
  {
    hide Serve, Receive, PostAll, Deliver, Truthful, SocketID, Receivable, TakeHead, Subscribes, Decode;
    var p, s := w.peers[a.peer], SocketID(a.peer, a.port);
    var package := Inboxes(w.mail)[s][0];
    assert package == w.mail.inboxes[s][0].package;
    ReceivableFrames(package, a.capacities);
    ReceiveKeeps(p, package);
    var r := Serve(p, w.Bound(), package, a.verdict);
    ServeEmits(p, w.Bound(), package, a.verdict);
    TargetsBound(p, r.peer, r.out, w.Bound());
    TakeHeadTakes(w.mail, s, r.fate);
    assert Inboxes(TakeHead(w.mail, s, r.fate)).Keys == w.Bound();
    PostAllDelivers(TakeHead(w.mail, s, r.fate), a.peer, r.out);
  }

  lemma TakingStep(w: World, a: Action)
    requires (a.DoFetch? || a.DoAwait?) && CanTake(w, a)
    ensures var was, s := Inboxes(w.mail), SocketID(a.peer, a.port);
            |was[s][0].frames| >= 2 &&
            Enabled(w, a) && Next(w, a).peers == w.peers[a.peer := Receive(w.peers[a.peer], was[s][0])] &&
            Next(w, a).mail.Valid() && Next(w, a).Bound() == w.Bound() &&
            Inboxes(Next(w, a).mail) == was[s := was[s][1..]]
  {
    hide Receive, SocketID, Receivable, TakeHead, Decode;
    var p, s := w.peers[a.peer], SocketID(a.peer, a.port);
    var package := Inboxes(w.mail)[s][0];
    assert package == w.mail.inboxes[s][0].package;
    ReceivableFrames(package, a.capacities);
    var fate := if a.DoFetch? then Returned else Await(p, package).1;
    TakeHeadTakes(w.mail, s, fate);
    assert Inboxes(TakeHead(w.mail, s, fate)).Keys == TakeHead(w.mail, s, fate).inboxes.Keys;
    assert Inboxes(w.mail).Keys == w.Bound();
  }

  // ---------- the methods

  // World w shows the peer's state and its network's inboxes.
  ghost predicate Shows(w: World, peer: Pe.Peer)
    reads peer, peer.hub, peer.ctx, peer.labelMessage, peer.labelMessage.buffer
  {
    peer.id in w.peers && w.peers[peer.id] == peer.State() && w.mail.Valid() && Inboxes(w.mail) == peer.ctx.packages
  }

  // Two peers of one network: other IDs, and no part in common but the context.
  ghost predicate Apart(q: Pe.Peer, r: Pe.Peer) {
    q != r && q.id != r.id && q.ctx == r.ctx && q.hub != r.hub && Clear([q.labelMessage, q.recvMessage], r)
  }

  // The messages are not a peer's own, nor over its label buffer.
  ghost predicate Clear(messages: seq<Message>, r: Pe.Peer) {
    forall i :: 0 <= i < |messages| ==>
      messages[i] != r.labelMessage && messages[i] != r.recvMessage && messages[i].buffer != r.labelMessage.buffer
  }

  lemma ApartParts(q: Pe.Peer, r: Pe.Peer)
    requires Apart(q, r)
    ensures q.labelMessage != r.labelMessage && q.labelMessage != r.recvMessage
    ensures q.recvMessage != r.labelMessage && q.recvMessage != r.recvMessage
    ensures q.labelMessage.buffer != r.labelMessage.buffer && q.recvMessage.buffer != r.labelMessage.buffer
  {
    var own := [q.labelMessage, q.recvMessage];
    assert own[0] == q.labelMessage && own[1] == q.recvMessage;
  }

  // What of a peer's validity depends on nothing but its own parts and the sockets bound.
  ghost predicate Sound(r: Pe.Peer, bound: set<string>)
    reads r, r.hub, r.labelMessage, r.recvMessage
  {
    r.hub.hubName == PeerIDtoHubName(r.id) && r.hub.ctx == r.ctx && r.hub.Wired(bound) &&
    r.labelMessage.Valid() && r.labelMessage.capacity == LABEL_SIZE && r.labelMessage.offset == 0 &&
    r.recvMessage.Valid() && r.recvMessage.offset == 0 &&
    r.labelMessage != r.recvMessage && r.labelMessage.buffer != r.recvMessage.buffer &&
    r.messageID == r.serial % MOD32
  }

  lemma SoundFrom(r: Pe.Peer)
    requires r.Valid()
    ensures Sound(r, r.ctx.packages.Keys)
  {
    hide HubSocket, Print;
  }

  ghost predicate Pictured(w: World, r: Pe.Peer)
    reads r, r.hub, r.labelMessage, r.labelMessage.buffer, r.recvMessage
  {
    Sound(r, w.Bound()) && r.id in w.peers && w.peers[r.id] == r.State()
  }

  lemma PicturedFrom(w: World, r: Pe.Peer)
    requires r.Valid() && Shows(w, r)
    ensures Pictured(w, r)
  {
    hide HubSocket, Print;
    assert Inboxes(w.mail).Keys == w.Bound();
  }

  lemma AllPictured(w: World, others: set<Pe.Peer>)
    requires forall r :: r in others ==> r.Valid() && Shows(w, r)
    ensures forall r :: r in others ==> Pictured(w, r)
  {
    forall r | r in others
      ensures Pictured(w, r)
    {
      PicturedFrom(w, r);
    }
  }

  // A step of another peer keeps the picture of this one.
  lemma StillShown(w: World, v: World, r: Pe.Peer, p: u16)
    requires Pictured(w, r) && r.ctx.Idle() && v.mail.Valid() && Inboxes(v.mail) == r.ctx.packages
    requires p != r.id && OthersKept(w, v, p)
    ensures r.Valid() && Shows(v, r)
  {
    hide HubSocket, Print;
    assert Inboxes(v.mail).Keys == v.Bound();
  }

  lemma ShownNow(v: World, peer: Pe.Peer)
    requires peer.Valid() && Shows(v, peer)
    ensures peer.ctx.Idle() && v.mail.Valid() && Inboxes(v.mail) == peer.ctx.packages
  {
    hide HubSocket, Print;
  }

  lemma ShownValid(w: World, peer: Pe.Peer)
    requires peer.Valid() && Shows(w, peer)
    ensures w.peers[peer.id].Valid() && w.Bound() == peer.ctx.packages.Keys
    ensures forall i :: peer.hub.Socket(i) == SocketID(peer.id, i)
    ensures forall i :: i in peer.hub.ports ==> peer.hub.Socket(i) in peer.ctx.packages
  {
    hide HubSocket, Print;
    assert Inboxes(w.mail).Keys == w.Bound();
  }

  method CallPush(peer: Pe.Peer, header: Label, package: seq<Message>, ghost w: World)
    returns (outcome: Outcome, ghost v: World)
    requires peer.Valid() && AllValid(package) && peer.Foreign(package) && Shows(w, peer)
    modifies peer`messageID, peer`serial, header, peer.labelMessage`frame, peer.labelMessage.buffer, peer.ctx,
             package`frame
    ensures peer.Valid() && Shows(v, peer)
    ensures OthersKept(w, v, peer.id)
    ensures var a := DoPush(peer.id, old(header.contents), old(Frames(package)));
            Enabled(w, a) && v == Next(w, a)
  {
    hide Send, Deliver, Outgoing, Next, Enabled, SocketID, Pe.Peer.Valid;
    ghost var a := DoPush(peer.id, header.contents, Frames(package));
    ShownValid(w, peer);
    outcome := peer.Push(header, package);
    PushStep(w, a);
    v := Next(w, a);
  }

  method MakePush(peer: Pe.Peer, header: Label, package: seq<Message>, ghost w: World, ghost others: set<Pe.Peer>)
    returns (outcome: Outcome, ghost v: World)
    requires peer.Valid() && AllValid(package) && peer.Foreign(package) && Shows(w, peer)
    requires forall r :: r in others ==> Apart(peer, r) && Clear(package, r) && r.Valid() && Shows(w, r)
    modifies peer`messageID, peer`serial, header, peer.labelMessage`frame, peer.labelMessage.buffer, peer.ctx,
             package`frame
    ensures peer.Valid() && Shows(v, peer)
    ensures forall r :: r in others ==> r.Valid() && Shows(v, r)
    ensures var a := DoPush(peer.id, old(header.contents), old(Frames(package)));
            Enabled(w, a) && v == Next(w, a)
  {
    hide Enabled, Next, HubSocket, Pe.Peer.Valid, Shows, Receivable, Decode, Capacities, OthersKept;
    AllPictured(w, others);
    outcome, v := CallPush(peer, header, package, w);
    ShownNow(v, peer);
    forall r | r in others
      ensures r.Valid() && Shows(v, r)
    {
      ApartParts(peer, r);
      assert Pictured(w, r);
      StillShown(w, v, r, peer.id);
    }
  }

  method CallPublish(peer: Pe.Peer, header: Label, package: seq<Message>, ghost w: World)
    returns (ok: bool, ghost v: World)
    requires peer.Valid() && AllValid(package) && peer.Foreign(package) && Shows(w, peer)
    modifies peer`messageID, peer`serial, peer`pubMap, peer.labelMessage`frame, peer.labelMessage.buffer, peer.ctx,
             package`frame
    ensures peer.Valid() && Shows(v, peer)
    ensures OthersKept(w, v, peer.id)
    ensures var a := DoPublish(peer.id, header.contents, old(Frames(package)));
            Enabled(w, a) && v == Next(w, a)
  {
    hide Protocol.Publish, Deliver, Outgoing, Next, Enabled, SocketID, Pe.Peer.Valid;
    ghost var a := DoPublish(peer.id, header.contents, Frames(package));
    ShownValid(w, peer);
    ok := peer.Publish(header, package);
    PublishStep(w, a);
    v := Next(w, a);
  }

  method MakePublish(peer: Pe.Peer, header: Label, package: seq<Message>, ghost w: World, ghost others: set<Pe.Peer>)
    returns (ok: bool, ghost v: World)
    requires peer.Valid() && AllValid(package) && peer.Foreign(package) && Shows(w, peer)
    requires forall r :: r in others ==> Apart(peer, r) && Clear(package, r) && r.Valid() && Shows(w, r)
    modifies peer`messageID, peer`serial, peer`pubMap, peer.labelMessage`frame, peer.labelMessage.buffer, peer.ctx,
             package`frame
    ensures peer.Valid() && Shows(v, peer)
    ensures forall r :: r in others ==> r.Valid() && Shows(v, r)
    ensures var a := DoPublish(peer.id, header.contents, old(Frames(package)));
            Enabled(w, a) && v == Next(w, a)
  {
    hide Enabled, Next, HubSocket, Pe.Peer.Valid, Shows, Receivable, Decode, Capacities, OthersKept;
    AllPictured(w, others);
    ok, v := CallPublish(peer, header, package, w);
    ShownNow(v, peer);
    forall r | r in others
      ensures r.Valid() && Shows(v, r)
    {
      ApartParts(peer, r);
      assert Pictured(w, r);
      StillShown(w, v, r, peer.id);
    }
  }

  // With nothing waiting the call times out, and no step was made.
  method CallServe(peer: Pe.Peer, verdict: Verdict, ghost w: World)
    returns (r: Option<(u16, Fate, Outcome)>, ghost v: World)
    requires peer.Valid() && peer.HeadsFit([peer.recvMessage]) && Shows(w, peer)
    requires forall i :: 0 <= i < |verdict.reply| ==> |verdict.reply[i]| < MOD64
    modifies peer`messageID, peer`serial, peer`pubMap
    modifies peer.hub`poller, peer.hub`pollPortID, peer.hub`pollEventFlags
    modifies peer.ctx, peer.labelMessage, peer.labelMessage.buffer, peer.recvMessage, peer.recvMessage.buffer
    ensures peer.Valid() && Shows(v, peer)
    ensures OthersKept(w, v, peer.id)
    ensures r == None ==> v == w
    ensures r.Some? ==>
              var a := DoServe(peer.id, r.value.0, [peer.recvMessage.capacity], verdict);
              Enabled(w, a) && v == Next(w, a)
  {
    hide Protocol.Serve, Deliver, DealtAll, Next, Enabled, HubSocket, Pe.Peer.Valid, Receivable, Pe.Served;
    ShownValid(w, peer);
    ghost var p, was := peer.State(), peer.ctx.packages;
    assert Capacities([peer.recvMessage]) == [peer.recvMessage.capacity];
    r := peer.ServiceInterfaces(verdict);
    v := w;
    if r.Some? {
      ghost var a := DoServe(peer.id, r.value.0, [peer.recvMessage.capacity], verdict);
      ServedStep(w, a, peer.State(), peer.ctx.packages, r.value.1, r.value.2);
      v := Next(w, a);
    }
  }

  method MakeServe(peer: Pe.Peer, verdict: Verdict, ghost w: World, ghost others: set<Pe.Peer>)
    returns (r: Option<(u16, Fate, Outcome)>, ghost v: World)
    requires peer.Valid() && peer.HeadsFit([peer.recvMessage]) && Shows(w, peer)
    requires forall i :: 0 <= i < |verdict.reply| ==> |verdict.reply[i]| < MOD64
    requires forall r :: r in others ==> Apart(peer, r) && r.Valid() && Shows(w, r)
    modifies peer`messageID, peer`serial, peer`pubMap
    modifies peer.hub`poller, peer.hub`pollPortID, peer.hub`pollEventFlags
    modifies peer.ctx, peer.labelMessage, peer.labelMessage.buffer, peer.recvMessage, peer.recvMessage.buffer
    ensures peer.Valid() && Shows(v, peer)
    ensures forall r :: r in others ==> r.Valid() && Shows(v, r)
    ensures r == None ==> v == w
    ensures r.Some? ==>
              var a := DoServe(peer.id, r.value.0, [peer.recvMessage.capacity], verdict);
              Enabled(w, a) && v == Next(w, a)
  {
    hide Enabled, Next, HubSocket, Pe.Peer.Valid, Shows, Receivable, Decode, Capacities, OthersKept;
    AllPictured(w, others);
    r, v := CallServe(peer, verdict, w);
    ShownNow(v, peer);
    forall r | r in others
      ensures r.Valid() && Shows(v, r)
    {
      ApartParts(peer, r);
      assert Pictured(w, r);
      StillShown(w, v, r, peer.id);
    }
  }

  lemma ServedStep(w: World, a: Action, q: PeerState, now: map<string, seq<Package>>, fate: Fate, outcome: Outcome)
    requires a.DoServe? && a.peer in w.peers && w.peers[a.peer].Valid() && w.mail.Valid()
    requires a.port in w.peers[a.peer].ports
    requires var was, s := Inboxes(w.mail), SocketID(a.peer, a.port);
             s in was && (was[s] != [] ==> Receivable(was[s][0], a.capacities)) &&
             Pe.Served(w.peers[a.peer], q, was, now, s, a.verdict, fate, outcome)
    ensures Enabled(w, a) && Next(w, a).mail.Valid() && Next(w, a).Bound() == w.Bound() &&
            Inboxes(Next(w, a).mail) == now
    ensures a.peer in Next(w, a).peers && Next(w, a).peers[a.peer] == q && OthersKept(w, Next(w, a), a.peer)
  {
    hide Protocol.Serve, Deliver, Next, Enabled, SocketID, Receivable;
    assert Inboxes(w.mail).Keys == w.Bound();
    ServeStep(w, a);
  }

  method CallFetch(peer: Pe.Peer, header: Label, package: seq<Message>, ghost w: World)
    returns (r: Pe.Polled, ghost v: World)
    requires peer.Valid() && peer.Receivers(package) && peer.HeadsFit(package) && Shows(w, peer)
    modifies peer.hub`poller, peer.hub`pollPortID, peer.hub`pollEventFlags
    modifies header, peer.ctx, peer.labelMessage, peer.labelMessage.buffer, package, Buffers(package)
    ensures peer.Valid() && Shows(v, peer)
    ensures OthersKept(w, v, peer.id)
    ensures r.Timeout? ==> v == w
    ensures r.Timeout? || r.Took?
    ensures r.Took? ==>
              var a := DoFetch(peer.id, r.port, Capacities(package));
              Enabled(w, a) && v == Next(w, a)
  {
    hide Receive, DealtAll, Next, Enabled, HubSocket, Pe.Peer.Valid, Receivable, W.Taken, Capacities, CheckSource,
         Decoded, Decode;
    ShownValid(w, peer);
    r := peer.GetPendingPackage(header, package);
    v := w;
    if r.Took? {
      ghost var a := DoFetch(peer.id, r.port, Capacities(package));
      TakenStep(w, a, peer.State(), peer.ctx.packages);
      v := Next(w, a);
    }
  }

  method MakeFetch(peer: Pe.Peer, header: Label, package: seq<Message>, ghost w: World, ghost others: set<Pe.Peer>)
    returns (r: Pe.Polled, ghost v: World)
    requires peer.Valid() && peer.Receivers(package) && peer.HeadsFit(package) && Shows(w, peer)
    requires forall r :: r in others ==> Apart(peer, r) && Clear(package, r) && r.Valid() && Shows(w, r)
    modifies peer.hub`poller, peer.hub`pollPortID, peer.hub`pollEventFlags
    modifies header, peer.ctx, peer.labelMessage, peer.labelMessage.buffer, package, Buffers(package)
    ensures peer.Valid() && Shows(v, peer)
    ensures forall r :: r in others ==> r.Valid() && Shows(v, r)
    ensures r.Timeout? ==> v == w
    ensures r.Timeout? || r.Took?
    ensures r.Took? ==>
              var a := DoFetch(peer.id, r.port, Capacities(package));
              Enabled(w, a) && v == Next(w, a)
  {
    hide Enabled, Next, HubSocket, Pe.Peer.Valid, Shows, Receivable, Decode, Capacities, OthersKept;
    AllPictured(w, others);
    r, v := CallFetch(peer, header, package, w);
    ShownNow(v, peer);
    forall r | r in others
      ensures r.Valid() && Shows(v, r)
    {
      ApartParts(peer, r);
      assert Pictured(w, r);
      StillShown(w, v, r, peer.id);
    }
  }

  // A turn of the request loop in which nobody else sends; what others send are steps
  // of theirs.
  method CallAwait(peer: Pe.Peer, package: seq<Message>, ghost w: World)
    returns (r: Pe.Polled, ghost v: World)
    requires peer.Valid() && peer.Receivers(package) && peer.AllFit(package) && Shows(w, peer)
    modifies peer.hub`poller, peer.hub`pollPortID, peer.hub`pollEventFlags
    modifies peer.ctx, peer.labelMessage, peer.labelMessage.buffer, package, Buffers(package)
    ensures peer.Valid() && Shows(v, peer)
    ensures OthersKept(w, v, peer.id)
    ensures r.Timeout? ==> v == w
    ensures r.Timeout? || r.Took?
    ensures r.Took? ==>
              var a := DoAwait(peer.id, r.port, Capacities(package));
              Enabled(w, a) && v == Next(w, a)
  {
    hide Receive, DealtBodies, Next, Enabled, HubSocket, Pe.Peer.Valid, Receivable, W.Taken, Capacities, Deliver,
         Pe.FitIn;
    ShownValid(w, peer);
    DeliverNone(peer.ctx.packages);
    r := peer.AwaitTurn(package, []);
    v := w;
    if r.Took? {
      ghost var a := DoAwait(peer.id, r.port, Capacities(package));
      TakenStep(w, a, peer.State(), peer.ctx.packages);
      v := Next(w, a);
    }
  }

  method MakeAwait(peer: Pe.Peer, package: seq<Message>, ghost w: World, ghost others: set<Pe.Peer>)
    returns (r: Pe.Polled, ghost v: World)
    requires peer.Valid() && peer.Receivers(package) && peer.AllFit(package) && Shows(w, peer)
    requires forall r :: r in others ==> Apart(peer, r) && Clear(package, r) && r.Valid() && Shows(w, r)
    modifies peer.hub`poller, peer.hub`pollPortID, peer.hub`pollEventFlags
    modifies peer.ctx, peer.labelMessage, peer.labelMessage.buffer, package, Buffers(package)
    ensures peer.Valid() && Shows(v, peer)
    ensures forall r :: r in others ==> r.Valid() && Shows(v, r)
    ensures r.Timeout? ==> v == w
    ensures r.Timeout? || r.Took?
    ensures r.Took? ==>
              var a := DoAwait(peer.id, r.port, Capacities(package));
              Enabled(w, a) && v == Next(w, a)
  {
    hide Enabled, Next, HubSocket, Pe.Peer.Valid, Shows, Receivable, Decode, Capacities, OthersKept;
    AllPictured(w, others);
    r, v := CallAwait(peer, package, w);
    ShownNow(v, peer);
    forall r | r in others
      ensures r.Valid() && Shows(v, r)
    {
      ApartParts(peer, r);
      assert Pictured(w, r);
      StillShown(w, v, r, peer.id);
    }
  }

  lemma TakenStep(w: World, a: Action, q: PeerState, now: map<string, seq<Package>>)
    requires (a.DoFetch? || a.DoAwait?) && a.peer in w.peers && w.peers[a.peer].Valid() && w.mail.Valid()
    requires a.port in w.peers[a.peer].ports
    requires var was, s := Inboxes(w.mail), SocketID(a.peer, a.port);
             s in was && (was[s] != [] ==> Receivable(was[s][0], a.capacities)) &&
             W.Taken(w.peers[a.peer], q, was, now, s)
    ensures Enabled(w, a) && Next(w, a).mail.Valid() && Next(w, a).Bound() == w.Bound() &&
            Inboxes(Next(w, a).mail) == now
    ensures a.peer in Next(w, a).peers && Next(w, a).peers[a.peer] == q && OthersKept(w, Next(w, a), a.peer)
  {
    hide Receive, Next, Enabled, SocketID, Receivable;
    TakingStep(w, a);
  }

  // ---------- where runs start

  // Peers that have sent nothing and recorded nothing, over inboxes that are empty, are
  // the start of a run.
  lemma StartsHere(peers: set<Pe.Peer>, ctx: Context) returns (w: World)
    requires forall q :: q in peers ==>
               q.Valid() && q.ctx == ctx && q.serial == 0 && q.State().Loaded() && q.pubMap == map[]
    requires forall q, r :: q in peers && r in peers && q.id == r.id ==> q == r
    requires forall s :: s in ctx.packages ==> ctx.packages[s] == []
    ensures Initial(w) && w.peers.Keys == (set q | q in peers :: q.id)
    ensures forall q :: q in peers ==> Shows(w, q)
  {
    hide HubSocket, Print;
    var states := map q | q in peers :: q.id := q.State();
    var none := map s | s in ctx.packages :: [];
    w := World(states, Mail(none, none, map s | s in ctx.packages :: []), map[], []);
    assert Inboxes(w.mail) == ctx.packages;
    forall id | id in w.peers
      ensures var q := w.peers[id];
              q.id == id && q.Valid() && q.serial == 0 && q.Loaded() && q.subs == map[] &&
              forall port :: port in q.ports ==> SocketID(id, port) in w.mail.inboxes
    {
      var q :| q in peers && q.id == id;
    }
  }

  // A sound peer is valid, and stays so when others bind more sockets.
  lemma StillValid(r: Pe.Peer, bound: set<string>)
    requires Sound(r, bound) && r.ctx.Idle() && bound <= r.ctx.packages.Keys
    ensures r.Valid()
  {
    hide HubSocket, Print;
  }

  // A network is put together peer by peer and port by port. A new peer has no part in
  // common with the others and leaves them as they are.
  method MakePeer(peerID: u16, recvMessageSize: nat, ctx: Context, ghost others: set<Pe.Peer>) returns (peer: Pe.Peer)
    requires ctx.Idle() && recvMessageSize < MOD64
    requires forall r :: r in others ==> r.Valid() && r.ctx == ctx && r.id != peerID
    ensures fresh(peer) && peer.Valid() && peer.id == peerID && peer.ctx == ctx
    ensures peer.serial == 0 && peer.State().Loaded() && peer.hub.ports == map[] && peer.pubMap == map[]
    ensures forall r :: r in others ==> Apart(peer, r) && Apart(r, peer) && r.Valid() && r.State() == old(r.State())
  {
    hide HubSocket, Print, Pe.Peer.Valid, Decode, Encode;
    peer := new Pe.Peer(peerID, recvMessageSize, ctx);
    forall r | r in others
      ensures Apart(peer, r) && Apart(r, peer)
    {
      assert allocated(r.recvMessage.buffer) && allocated(r.labelMessage.buffer);
      assert allocated(r) && allocated(r.labelMessage) && allocated(r.recvMessage);
    }
  }

  // Adding a port leaves the other peers valid, with their states.
  method MakePort(peer: Pe.Peer, transport: Transport, flags: set<Event>, portID: u16, ghost others: set<Pe.Peer>)
    returns (ok: bool)
    requires peer.Valid() && transport.Inproc?
    requires forall r :: r in others ==> Apart(peer, r) && r.Valid()
    modifies peer.hub, peer.ctx
    ensures peer.Valid() && ok == (SocketID(peer.id, portID) !in old(peer.ctx.packages))
    ensures peer.ctx.packages ==
            if ok then old(peer.ctx.packages)[SocketID(peer.id, portID) := []] else old(peer.ctx.packages)
    ensures peer.State() ==
            if ok then old(peer.State()).(ports := old(peer.hub.ports.Keys) + {portID}) else old(peer.State())
    ensures forall r :: r in others ==> r.Valid() && r.State() == old(r.State())
  {
    hide HubSocket, Print, Pe.Peer.Valid, Decode;
    ghost var bound := peer.ctx.packages.Keys;
    forall r | r in others
      ensures Sound(r, bound)
    {
      SoundFrom(r);
    }
    ok := peer.AddPort(transport, flags, portID);
    ValidIdle(peer);
    forall r | r in others
      ensures r.Valid() && r.State() == old(r.State())
    {
      ApartParts(peer, r);
      assert Sound(r, bound);
      StillValid(r, bound);
    }
  }

  lemma ValidIdle(peer: Pe.Peer)
    requires peer.Valid()
    ensures peer.ctx.Idle()
  {
    hide HubSocket, Print;
  }
}
