/**
 Concrete calls and runs in which a promise is broken: the inputs behind the exact
 conditions proved in the other modules.
 */
module Scenarios {
  import opened Words
  import opened Naming
  import opened Labels
  import opened Messages
  import opened Wire
  import opened Ports
  import opened Hubs
  import opened Protocol
  import opened Network
  import opened Runs
  import opened Publishing
  import opened Requests
  import opened Accepting

  // ---------- one message, one port, one hub

  // One byte at the last offset of all: the sum wraps to zero, is accepted, and leaves
  // a message that reaches outside its buffer.
  method ResizeAcrossTheEnd(capacity: nat) returns (m: Message)
    requires capacity < MOD64
    ensures fresh(m) && m.capacity == capacity
    ensures m.size == 1 && m.offset == MOD64 - 1 && m.Loaded() && !m.Valid()
  {
    m := new Message(capacity);
    m.Resize(1, MOD64 - 1);
  }

  // Two frames of two bytes each fit a buffer of three one by one, but not together.
  method TwoFramesOverrun() returns (r: Received)
    ensures r == Overrun
  {
    var ctx := new Context();
    var target := PortNameToSocketID("2-0", Inproc);
    assert target[9] == '2' && PortNameToSocketID("1-0", Inproc)[9] == '1';
    var sender := new Port("1-0", Inproc, ctx);
    var receiver := new Port("2-0", Inproc, ctx);
    SendTwo(sender, "2-0", "ab", "cd");
    var buffer := new Message(3);
    assert ctx.packages[target][0].frames[1..] == ["ab", "cd"];
    assert ["ab", "cd"][1..] == ["cd"] && ["cd"][1..] == [];
    assert Joined(["ab", "cd"], 3) == "ab" + ("cd" + []);
    assert ["ab", "cd"][0..] == ["ab", "cd"];
    r := receiver.ReceiveOne(buffer, false);
  }

  method SendTwo(port: Port, portName: string, first: string, second: string)
    requires port.Valid() && |first| < MOD64 && |second| < MOD64
    requires PortNameToSocketID(portName, port.transport) in port.ctx.packages
    modifies port.ctx
    ensures port.Valid()
    ensures var target := PortNameToSocketID(portName, port.transport);
            port.ctx.packages == old(port.ctx.packages)[target := old(port.ctx.packages[target]) +
                                                        [Package(port.Socket(), ["", first, second])]]
  {
    var messages := LoadAll([first, second]);
    assert [""] + [first, second] == ["", first, second];
    var _ := port.Send(portName, messages);
  }

  // A port that was removed cannot be added again.
  method AddAgain(hubName: string, portID: u16) returns (added: bool, again: bool)
    ensures added && !again
  {
    var ctx := new Context();
    var hub := new Hub(hubName, ctx);
    added := hub.AddPort(portID, Inproc, {PollIn});
    hub.RemovePort(portID);
    again := hub.AddPort(portID, Inproc, {PollIn});
  }

  // A hub name with a dash: port 2 of hub "a-1" reads as port 1 of hub "a".
  lemma DashInHubName()
    ensures ParsePortName(PortNameOf("a-1", 2)) == ("a", Some(1))
  {
    hide Stoi;
    UntilDelim("a", "1-2", '-');
    UntilDelim("1", "2", '-');
    StoiOfToDecimal(1);
    assert PortNameOf("a-1", 2) == "a" + ['-'] + "1-2" && PortNameOf("a-1", 2)[2..] == "1" + ['-'] + "2";
  }

  // A hub name with a slash: the name of its port is cut there.
  lemma SlashInHubName()
    ensures PortNameFromSocketID(PortNameToSocketID(PortNameOf("a/b", 2), Inproc)) == "a"
  {
    hide PortNameFromSocketID, PortNameToSocketID;
    FromSocketID(PortNameOf("a/b", 2));
    UntilDelim("a", "b-2", '/');
    assert PortNameOf("a/b", 2) == "a" + ['/'] + "b-2";
  }

  // ---------- three peers with one port each

  function Socket(p: u16): string {
    SocketID(p, 0)
  }

  function Port0(p: u16, i: u16): Endpoint {
    Endpoint(p, 0, i)
  }

  function Header(from: u16, to: u16, iface: u16): Contents {
    Contents(0, 0, Port0(from, 9), Port0(to, iface))
  }

  const REQUESTS: u16 := 1
  const SUBSCRIPTIONS: u16 := 5

  function NewPeer(id: u16): PeerState {
    var interfaces := if id == 2 then map[REQUESTS := Reply, SUBSCRIPTIONS := Subscription] else map[];
    PeerState(id, 0, 0, Encode(Header(id, id, 0)), LABEL_SIZE, {0}, interfaces, map[])
  }

  // Peers 1, 2 and 3; peer 2 has a reply and a subscription interface.
  function Start(): World {
    World(map[1 := NewPeer(1), 2 := NewPeer(2), 3 := NewPeer(3)],
          Mail(map[Socket(1) := [], Socket(2) := [], Socket(3) := []],
               map[Socket(1) := [], Socket(2) := [], Socket(3) := []],
               map[Socket(1) := [], Socket(2) := [], Socket(3) := []]),
          map[], [])
  }

  lemma SocketsDiffer()
    ensures Socket(1) != Socket(2) && Socket(1) != Socket(3) && Socket(2) != Socket(3)
  {
    hide SocketID;
    SocketIDInjective(1, 0, 2, 0);
    SocketIDInjective(1, 0, 3, 0);
    SocketIDInjective(2, 0, 3, 0);
  }

  lemma StartsRun()
    ensures IsRun([Start()], []) && Inv(Start())
  {
    hide SocketID, Encode;
    SocketsDiffer();
    assert Initial(Start());
    InitialInv(Start());
  }

  // One more step of a run.
  lemma Extend(ws: seq<World>, acts: seq<Action>, a: Action) returns (xs: seq<World>, all: seq<Action>)
    requires IsRun(ws, acts) && |ws| == |acts| + 1 && Enabled(ws[|acts|], a) && Inv(ws[|acts|])
    ensures IsRun(xs, all) && |xs| == |all| + 1 && Inv(xs[|all|])
    ensures xs == ws + [Next(ws[|acts|], a)] && all == acts + [a]
  {
    hide Next, Enabled, Initial, Inv;
    StepKeeps(ws[|acts|], a);
    xs, all := ws + [Next(ws[|acts|], a)], acts + [a];
  }

  // One more step of a request run.
  lemma ExtendRequest(ws: seq<World>, acts: seq<Action>, a: Action, d: Dialogue)
    returns (xs: seq<World>, all: seq<Action>)
    requires RequestRun(ws, acts, d) && Enabled(ws[|acts|], a) && Inv(ws[|acts|])
    requires d.a in ws[|acts|].peers && d.b in ws[|acts|].peers && Allowed(ws[|acts|], a, Next(ws[|acts|], a), d)
    ensures RequestRun(xs, all, d) && |xs| == |all| + 1 && Inv(xs[|all|])
    ensures xs == ws + [Next(ws[|acts|], a)] && all == acts + [a]
  {
    hide Next, Enabled, Initial, Inv, Allowed;
    xs, all := Extend(ws, acts, a);
    forall n | 0 <= n < |all|
      ensures d.a in xs[n].peers && d.b in xs[n].peers && Allowed(xs[n], all[n], xs[n + 1], d)
    {
      if n < |acts| {
        assert Allowed(ws[n], acts[n], ws[n + 1], d);
      }
    }
  }

  // What a push does to the network.
  ghost predicate Pushed(w: World, a: Action, v: World, item: Item)
    requires a.DoPush? && a.peer in w.peers
  {
    var p, target := w.peers[a.peer], SocketID(a.header.dest.peer, a.header.dest.port);
    a.peer in v.peers && v.peers == w.peers[a.peer := v.peers[a.peer]] && p.SameConfig(v.peers[a.peer]) &&
    v.peers[a.peer].serial == p.serial + 1 && v.peers[a.peer].counter == (p.counter + 1) % MOD32 &&
    v.peers[a.peer].labelLen == 0 && v.peers[a.peer].subs == p.subs &&
    target in w.mail.inboxes && target in w.mail.arrived &&
    v.mail == Mail(w.mail.inboxes[target := w.mail.inboxes[target] + [item]],
                   w.mail.arrived[target := w.mail.arrived[target] + [item]], w.mail.taken) &&
    v.accepted == w.accepted && v.answers == w.answers &&
    item.from == a.peer && item.serial == p.serial + 1 && item.package.sender == SocketID(a.peer, a.header.src.port) &&
    |item.package.frames| == |a.body| + 2 && item.package.frames[0] == "" && item.package.frames[2..] == a.body &&
    |item.package.frames[1]| == p.labelLen &&
    (Labelled(item.package) <==> p.Loaded()) &&
    (p.Loaded() ==> LabelOf(item.package) == a.header.From(a.peer).(messageID := v.peers[a.peer].counter))
  }

  lemma PushEffect(w: World, a: Action) returns (v: World, item: Item)
    requires Inv(w) && a.DoPush? && a.peer in w.peers && a.header.src.port in w.peers[a.peer].ports
    requires SocketID(a.header.dest.peer, a.header.dest.port) in w.Bound()
    ensures Enabled(w, a) && v == Next(w, a) && Pushed(w, a, v, item)
  {
    hide SocketID, Send, Inv, Encode, Decode;
    var p := w.peers[a.peer];
    InvPeers(w, a.peer);
    InvMail(w);
    SendMeaning(p, w.Bound(), a.header, a.body);
    SendEmits(p, w.Bound(), a.header, a.body);
    var r := Send(p, w.Bound(), a.header, a.body);
    v := Next(w, a);
    item := Item(r.out[0].package, a.peer, r.out[0].serial);
    assert r.out[1..] == [];
    assert PostAll(w.mail, a.peer, r.out) == Post(w.mail, a.peer, r.out[0]);
  }

  // A package without bodies can always be received.
  lemma BarePackage(package: Package, p: u16)
    requires |package.frames| == 2 && package.frames[0] == "" && package.sender == Socket(p)
    ensures Receivable(package, [10])
  {
    hide SocketID, Decoded;
    SocketIDDecodes(p, 0);
  }

  // A turn of the request loop takes the head of an inbox and sends nothing.
  lemma AwaitEffect(w: World, a: Action) returns (v: World)
    requires Inv(w) && a.DoAwait? && a.peer in w.peers && a.port in w.peers[a.peer].ports
    requires var s := SocketID(a.peer, a.port);
             s in w.mail.inboxes && w.mail.inboxes[s] != [] && Receivable(w.mail.inboxes[s][0].package, a.capacities)
    ensures Enabled(w, a) && v == Next(w, a) && v.answers == w.answers && v.mail.arrived == w.mail.arrived
    ensures var s := SocketID(a.peer, a.port); v.mail.inboxes == w.mail.inboxes[s := w.mail.inboxes[s][1..]]
  {
    hide SocketID, Receive, Receivable, Inv, Decode;
    InvPeers(w, a.peer);
    InvMail(w);
    ReceivableFrames(w.mail.inboxes[SocketID(a.peer, a.port)][0].package, a.capacities);
    v := Next(w, a);
  }

  // ---------- a request accepts a package without a label

  // Peer 3 sends to itself and then to peer 1; its second package has no label. Peer 1
  // sends a request to peer 2 and takes peer 3's package. It is accepted as the answer,
  // while the request still waits to be served.
  lemma StrangerIsAccepted() returns (ws: seq<World>, acts: seq<Action>)
    ensures RequestRun(ws, acts, Dialogue(1, 2, 0)) && |acts| == 4 && acts[3].DoAwait? && acts[3].peer == 1
    ensures Enabled(ws[3], acts[3]) && Head(ws[3], acts[3]).from == 3 && !Labelled(Head(ws[3], acts[3]).package)
    ensures TurnFate(ws[3], acts[3]) == Matched
    ensures ws[4].answers == [] && Socket(2) in ws[4].mail.inboxes && |ws[4].mail.inboxes[Socket(2)]| == 1
  {
    hide SocketID, Encode, Decode, Next, Enabled, Inv, IsRun, TurnFate, Receivable, Labelled, LabelOf, RequestRun;
    SocketsDiffer();
    StartsRun();
    var d := Dialogue(1, 2, 0);
    var a0 := DoPush(3, Header(3, 3, 0), []);
    var a1 := DoPush(3, Header(3, 1, 0), []);
    var a2 := DoPush(1, Header(1, 2, REQUESTS), []);
    var a3 := DoAwait(1, 0, [10]);
    ws, acts := [Start()], [];
    StartsRequests(d);
    var w1, i0 := PushEffect(ws[0], a0);
    assert Allowed(ws[0], a0, w1, d);
    ws, acts := ExtendRequest(ws, acts, a0, d);
    var w2, i1 := PushEffect(w1, a1);
    assert Allowed(w1, a1, w2, d);
    ws, acts := ExtendRequest(ws, acts, a1, d);
    var w3, i2 := PushEffect(w2, a2);
    assert Allowed(w2, a2, w3, d);
    ws, acts := ExtendRequest(ws, acts, a2, d);
    assert w3.mail.inboxes[Socket(1)] == [i1];
    BarePackage(i1.package, 3);
    var w4 := AwaitEffect(w3, a3);
    assert Allowed(w3, a3, w4, d);
    ws, acts := ExtendRequest(ws, acts, a3, d);
    assert acts == [a0, a1, a2, a3] && ws == [Start(), w1, w2, w3, w4];
    RequestIsRun(ws, acts, d);
    UnlabelledIsAccepted(ws, acts, 2, 3);
  }

  lemma StartsRequests(d: Dialogue)
    requires d.a in {1, 3} && d.b == 2 && d.port == 0
    ensures RequestRun([Start()], [], d)
  {
    hide SocketID, Encode, IsRun;
    StartsRun();
  }

  lemma RequestIsRun(ws: seq<World>, acts: seq<Action>, d: Dialogue)
    requires RequestRun(ws, acts, d)
    ensures IsRun(ws, acts)
  {
  }

  // ---------- a request drops its own answer

  lemma ServeEnabled(w: World, a: Action)
    requires Inv(w) && a.DoServe? && a.peer in w.peers && a.port in w.peers[a.peer].ports
    requires var s := SocketID(a.peer, a.port);
             s in w.mail.inboxes && w.mail.inboxes[s] != [] && Receivable(w.mail.inboxes[s][0].package, a.capacities)
    ensures Enabled(w, a)
  {
    hide SocketID, Receivable, Inv;
    InvPeers(w, a.peer);
    InvMail(w);
  }

  // Peer 1 sends its first request to peer 2, which sends something else before it
  // answers. The answer carries number 2, and peer 1, which waits for 1, drops it.
  lemma AnswerIsDropped() returns (ws: seq<World>, acts: seq<Action>)
    ensures IsRun(ws, acts) && |acts| == 4 && acts[3].DoAwait? && acts[3].peer == 1 && Enabled(ws[3], acts[3])
    ensures |ws[3].answers| == 1 && ws[3].answers[0].who == 2
    ensures var request, reply := ws[3].answers[0].request, ws[3].answers[0].reply;
            request.from == 1 && Labelled(request.package) && LabelOf(request.package).messageID == 1 &&
            Head(ws[3], acts[3]) == reply && Labelled(reply.package) && LabelOf(reply.package).messageID == 2 &&
            1 in ws[3].peers && ws[3].peers[1].serial == 1 && TurnFate(ws[3], acts[3]) == WrongID
  {
    hide SocketID, Encode, Decode, Next, Enabled, Inv, IsRun, TurnFate, Receivable;
    SocketsDiffer();
    StartsRun();
    var a0 := DoPush(1, Header(1, 2, REQUESTS), []);
    var a1 := DoPush(2, Header(2, 3, 0), []);
    var a2 := DoServe(2, 0, [10], Verdict(true, []));
    var a3 := DoAwait(1, 0, [10]);
    ws, acts := [Start()], [];
    var w1, request := PushEffect(ws[0], a0);
    ws, acts := Extend(ws, acts, a0);
    var w2, i1 := PushEffect(w1, a1);
    ws, acts := Extend(ws, acts, a1);
    assert w2.mail.inboxes[Socket(2)] == [request];
    BarePackage(request.package, 1);
    ServeEnabled(w2, a2);
    ws, acts := Extend(ws, acts, a2);
    AnswerArrives(ws, acts, request);
    var reply := ws[3].answers[0].reply;
    BarePackage(reply.package, 2);
    var w4 := AwaitEffect(ws[3], a3);
    ws, acts := Extend(ws, acts, a3);
    TurnAccepts(ws, acts, 3);
  }

  // What peer 2's answer to the only request is like, and that nothing else waits for
  // peer 1.
  lemma AnswerArrives(ws: seq<World>, acts: seq<Action>, request: Item)
    requires IsRun(ws, acts) && |acts| == 3 && |ws| == 4 && acts[2] == DoServe(2, 0, [10], Verdict(true, []))
    requires 1 in ws[2].peers && 2 in ws[2].peers && Socket(1) in ws[2].mail.inboxes && Socket(2) in ws[2].mail.inboxes
    requires ws[2].mail.inboxes[Socket(1)] == [] && ws[2].mail.inboxes[Socket(2)] == [request] && ws[2].answers == []
    requires Labelled(request.package) && request.package.sender == Socket(1)
    requires LabelOf(request.package).dest.iface == REQUESTS && LabelOf(request.package).src == Port0(1, 9)
    requires ws[2].peers[2].serial == 1 && ws[2].peers[2].interfaces == NewPeer(2).interfaces
    ensures |ws[3].answers| == 1 && ws[3].answers[0].who == 2 && ws[3].answers[0].request == request
    ensures var reply := ws[3].answers[0].reply;
            Socket(1) in ws[3].mail.inboxes && ws[3].mail.inboxes[Socket(1)] == [reply] && reply.serial == 2 &&
            |reply.package.frames| == 2 && reply.package.frames[0] == "" && reply.package.sender == Socket(2) &&
            Labelled(reply.package) && LabelOf(reply.package).messageID == 2
    ensures 1 in ws[3].peers && ws[3].peers[1] == ws[2].peers[1]
  {
    hide SocketID, Encode, Decode, Next, Enabled, Inv, IsRun, Receivable;
    SocketsDiffer();
    ReplyReaches(ws, acts, 2);
    ReplyCarriesID(ws, acts, 2);
  }

  // ---------- a publish fails the second subscriber

  lemma SubscribeEffect(w: World, a: Action) returns (v: World)
    requires Inv(w) && a.DoServe? && a.verdict.pass && a.peer in w.peers && a.port in w.peers[a.peer].ports
    requires var s := SocketID(a.peer, a.port);
             s in w.mail.inboxes && w.mail.inboxes[s] != [] && Receivable(w.mail.inboxes[s][0].package, a.capacities) &&
             Labelled(w.mail.inboxes[s][0].package) &&
             var i := LabelOf(w.mail.inboxes[s][0].package).dest.iface;
             i in w.peers[a.peer].interfaces && w.peers[a.peer].interfaces[i] == Subscription
    ensures Enabled(w, a) && v == Next(w, a) && a.peer in v.peers && v.peers == w.peers[a.peer := v.peers[a.peer]]
    ensures var s := SocketID(a.peer, a.port);
            var header := LabelOf(w.mail.inboxes[s][0].package);
            var p, q := w.peers[a.peer], v.peers[a.peer];
            q == Subscribe(p.(labelBuf := q.labelBuf, labelLen := LABEL_SIZE), header.Swapped()) &&
            v.mail.inboxes == w.mail.inboxes[s := w.mail.inboxes[s][1..]]
  {
    hide SocketID, Receivable, Inv, Decode;
    ServeEnabled(w, a);
    InvPeers(w, a.peer);
    InvMail(w);
    var package := w.mail.inboxes[SocketID(a.peer, a.port)][0].package;
    ReceiveKeeps(w.peers[a.peer], package);
    v := Next(w, a);
  }

  // Peers 1 and 3 subscribe at peer 2, both with success, and peer 2 publishes once.
  // Peer 1 gets label and payload. Peer 3 gets a package with neither.
  lemma SecondSubscriberGetsNothing() returns (ws: seq<World>, acts: seq<Action>)
    ensures IsRun(ws, acts) && |acts| == 5 && acts[4].DoPublish? && acts[4].peer == 2 && acts[4].body == ["x"]
    ensures 2 in ws[4].peers && |ws[4].Subs(2, SUBSCRIPTIONS)| == 2 && ws[4].peers[2].Loaded()
    ensures Socket(1) in ws[5].mail.inboxes && |ws[5].mail.inboxes[Socket(1)]| == 1
    ensures Socket(3) in ws[5].mail.inboxes && |ws[5].mail.inboxes[Socket(3)]| == 1
    ensures var first, second := ws[5].mail.inboxes[Socket(1)][0].package, ws[5].mail.inboxes[Socket(3)][0].package;
            Labelled(first) && first.frames[2..] == ["x"] && |second.frames| == 3 && !Labelled(second) &&
            second.frames[2] == ""
  {
    hide SocketID, Encode, Decode, Next, Enabled, Inv, IsRun, Receivable;
    SocketsDiffer();
    StartsRun();
    var a0 := DoPush(1, Header(1, 2, SUBSCRIPTIONS), []);
    var a1 := DoPush(3, Header(3, 2, SUBSCRIPTIONS), []);
    var serve := DoServe(2, 0, [10], Verdict(true, []));
    ws, acts := [Start()], [];
    var w1, i0 := PushEffect(ws[0], a0);
    ws, acts := Extend(ws, acts, a0);
    var w2, i1 := PushEffect(w1, a1);
    ws, acts := Extend(ws, acts, a1);
    assert w2.mail.inboxes[Socket(2)] == [i0, i1];
    BarePackage(i0.package, 1);
    var w3 := SubscribeEffect(w2, serve);
    ws, acts := Extend(ws, acts, serve);
    assert w3.mail.inboxes[Socket(2)] == [i1];
    BarePackage(i1.package, 3);
    var w4 := SubscribeEffect(w3, serve);
    ws, acts := Extend(ws, acts, serve);
    assert w4.mail.inboxes[Socket(1)] == [] && w4.mail.inboxes[Socket(3)] == [];
    var receipts := [LabelOf(i0.package).Swapped(), LabelOf(i1.package).Swapped()];
    assert w4.peers[2].subs[SUBSCRIPTIONS] == receipts;
    var w5 := PublishTwo(w4, receipts);
    ws, acts := Extend(ws, acts, DoPublish(2, Header(2, 2, SUBSCRIPTIONS).Swapped(), ["x"]));
  }

  lemma PostTwo(m: Mail, out: seq<Delivery>)
    requires |out| == 2
    ensures PostAll(m, 2, out) == Post(Post(m, 2, out[0]), 2, out[1])
  {
    hide Post;
    assert out[1..][0] == out[1] && out[1..][1..] == [];
    assert PostAll(Post(m, 2, out[0]), 2, out[1..]) == Post(Post(m, 2, out[0]), 2, out[1]);
  }

  lemma PublishTwo(w: World, receipts: seq<Contents>) returns (v: World)
    requires Inv(w) && 2 in w.peers && w.peers[2].ports == {0} && w.peers[2].Loaded()
    requires SUBSCRIPTIONS in w.peers[2].subs && w.peers[2].subs[SUBSCRIPTIONS] == receipts && |receipts| == 2
    requires receipts[0].src.port == receipts[1].src.port == 0
    requires receipts[0].dest.peer == 1 && receipts[0].dest.port == 0
    requires receipts[1].dest.peer == 3 && receipts[1].dest.port == 0
    requires Socket(1) in w.mail.inboxes && Socket(3) in w.mail.inboxes
    requires w.mail.inboxes[Socket(1)] == [] && w.mail.inboxes[Socket(3)] == []
    ensures var a := DoPublish(2, Header(2, 2, SUBSCRIPTIONS).Swapped(), ["x"]);
            Enabled(w, a) && v == Next(w, a)
    ensures Socket(1) in v.mail.inboxes && |v.mail.inboxes[Socket(1)]| == 1
    ensures Socket(3) in v.mail.inboxes && |v.mail.inboxes[Socket(3)]| == 1
    ensures var first, second := v.mail.inboxes[Socket(1)][0].package, v.mail.inboxes[Socket(3)][0].package;
            Labelled(first) && first.frames[2..] == ["x"] && |second.frames| == 3 && !Labelled(second) &&
            second.frames[2] == ""
  {
    hide SocketID, Encode, Decode, Inv, Publish;
    var a := DoPublish(2, Header(2, 2, SUBSCRIPTIONS).Swapped(), ["x"]);
    SocketsDiffer();
    InvPeers(w, 2);
    InvMail(w);
    var p := w.peers[2];
    PublishReachesEach(p, w.Bound(), a.header, a.body);
    var out := Publish(p, w.Bound(), a.header, a.body).out;
    assert PublishedTo(out[0], receipts[0], p, 0, true, a.body);
    assert PublishedTo(out[1], receipts[1], p, 1, false, a.body);
    v := Next(w, a);
    PostTwo(w.mail, out);
    var second := out[1].package;
    assert second.frames[2] == second.frames[2..][0] == "";
  }

  // ---------- a second publish fails the only subscriber

  // Whatever peer 2 publishes to its one subscriber, peer 1, has a label exactly when
  // the label was loaded, and uses it up.
  lemma PublishOne(w: World, a: Action) returns (v: World, item: Item)
    requires Inv(w) && a == DoPublish(2, Header(2, 2, SUBSCRIPTIONS).Swapped(), ["x"])
    requires 2 in w.peers && w.peers[2].ports == {0} && SUBSCRIPTIONS in w.peers[2].subs && Socket(1) in w.mail.inboxes
    requires var receipts := w.peers[2].subs[SUBSCRIPTIONS];
             |receipts| == 1 && receipts[0].src.port == 0 && receipts[0].dest.peer == 1 && receipts[0].dest.port == 0
    ensures Enabled(w, a) && v == Next(w, a)
    ensures 2 in v.peers && v.peers[2].ports == {0} && SUBSCRIPTIONS in v.peers[2].subs && !v.peers[2].Loaded()
    ensures v.peers[2].subs[SUBSCRIPTIONS] == [w.peers[2].subs[SUBSCRIPTIONS][0].From(2)]
    ensures v.mail.inboxes == w.mail.inboxes[Socket(1) := w.mail.inboxes[Socket(1)] + [item]]
    ensures item.package.frames != [] && (Labelled(item.package) <==> w.peers[2].Loaded())
  {
    hide SocketID, Encode, Decode, Inv, Send, PublishFrom;
    InvPeers(w, 2);
    InvMail(w);
    var p := w.peers[2];
    var receipt := p.subs[SUBSCRIPTIONS][0];
    var r := Send(p, w.Bound(), receipt, a.body);
    SendMeaning(p, w.Bound(), receipt, a.body);
    SendEmits(p, w.Bound(), receipt, a.body);
    var q := r.peer.(subs := p.subs[SUBSCRIPTIONS := p.subs[SUBSCRIPTIONS][0 := r.header]]);
    PublishOnce(p, w.Bound(), SUBSCRIPTIONS, 0, a.body);
    PublishOnce(q, w.Bound(), SUBSCRIPTIONS, 1, r.body);
    assert Publish(p, w.Bound(), a.header, a.body) == PublishResult(q, r.body, r.out + [], true);
    assert r.out + [] == r.out && r.out[1..] == [];
    assert PostAll(w.mail, 2, r.out) == Post(w.mail, 2, r.out[0]);
    v := Next(w, a);
    item := Item(r.out[0].package, 2, r.out[0].serial);
    assert v.mail == Post(w.mail, 2, r.out[0]);
  }

  // Peer 1 is the only subscriber of peer 2, which publishes twice. The first package
  // has its label, the second has none.
  lemma SecondPublishHasNoLabel() returns (ws: seq<World>, acts: seq<Action>)
    ensures IsRun(ws, acts) && |acts| == 4 && acts[2] == acts[3] && acts[2].DoPublish? && acts[2].peer == 2
    ensures 2 in ws[3].peers && |ws[3].Subs(2, SUBSCRIPTIONS)| == 1
    ensures Socket(1) in ws[4].mail.inboxes && |ws[4].mail.inboxes[Socket(1)]| == 2
    ensures Labelled(ws[4].mail.inboxes[Socket(1)][0].package) && !Labelled(ws[4].mail.inboxes[Socket(1)][1].package)
  {
    hide SocketID, Encode, Decode, Next, Enabled, Inv, IsRun, Receivable, Labelled;
    SocketsDiffer();
    StartsRun();
    var push := DoPush(1, Header(1, 2, SUBSCRIPTIONS), []);
    var serve := DoServe(2, 0, [10], Verdict(true, []));
    var publish := DoPublish(2, Header(2, 2, SUBSCRIPTIONS).Swapped(), ["x"]);
    ws, acts := [Start()], [];
    var w1, i0 := PushEffect(ws[0], push);
    ws, acts := Extend(ws, acts, push);
    assert w1.mail.inboxes[Socket(2)] == [i0];
    BarePackage(i0.package, 1);
    var w2 := SubscribeEffect(w1, serve);
    ws, acts := Extend(ws, acts, serve);
    assert w2.mail.inboxes[Socket(1)] == [];
    assert w2.peers[2].subs[SUBSCRIPTIONS] == [LabelOf(i0.package).Swapped()];
    var w3, first := PublishOne(w2, publish);
    ws, acts := Extend(ws, acts, publish);
    var w4, second := PublishOne(w3, publish);
    ws, acts := Extend(ws, acts, publish);
    assert w4.mail.inboxes[Socket(1)] == [first, second];
  }

  // ---------- a publish stops at a subscriber that nobody bound

  // A push from a port that the peer does not have only leaves its stamp in the buffer.
  lemma PushNowhere(w: World, a: Action) returns (v: World)
    requires Inv(w) && a.DoPush? && a.peer in w.peers && a.header.src.port !in w.peers[a.peer].ports
    ensures Enabled(w, a) && v == Next(w, a) && v.mail == w.mail && v.accepted == w.accepted && v.answers == w.answers
    ensures a.peer in v.peers && v.peers == w.peers[a.peer := v.peers[a.peer]]
    ensures var p, q := w.peers[a.peer], v.peers[a.peer];
            |q.labelBuf| == LABEL_SIZE && q.labelLen == p.labelLen && p.SameConfig(q) && q.subs == p.subs &&
            q.Label() == a.header.From(a.peer).(messageID := q.counter)
  {
    hide SocketID, Encode, Decode, Inv;
    InvPeers(w, a.peer);
    InvMail(w);
    var p := w.peers[a.peer];
    LabelRoundTrip(a.header.From(a.peer).(messageID := (p.counter + 1) % MOD32));
    v := Next(w, a);
  }

  // A package without a label is accepted as a subscription under the label that is left
  // in the buffer.
  lemma StaleSubscription(w: World, a: Action) returns (v: World)
    requires Inv(w) && a.DoServe? && a.verdict.pass && a.peer in w.peers && a.port in w.peers[a.peer].ports
    requires var s := SocketID(a.peer, a.port);
             s in w.mail.inboxes && w.mail.inboxes[s] != [] && Receivable(w.mail.inboxes[s][0].package, a.capacities) &&
             |w.mail.inboxes[s][0].package.frames| >= 2 && w.mail.inboxes[s][0].package.frames[1] == ""
    requires |w.peers[a.peer].labelBuf| == LABEL_SIZE &&
             Subscribable(w.peers[a.peer], w.peers[a.peer].Label().dest.iface)
    ensures Enabled(w, a) && v == Next(w, a) && a.peer in v.peers
    ensures v.peers[a.peer] ==
            Subscribe(w.peers[a.peer].(labelLen := 0), w.peers[a.peer].Label().Swapped())
    ensures v.Bound() == w.Bound()
  {
    hide SocketID, Receivable, Inv, Decode;
    ServeEnabled(w, a);
    StepKeeps(w, a);
    InvPeers(w, a.peer);
    InvMail(w);
    var p, package := w.peers[a.peer], w.mail.inboxes[SocketID(a.peer, a.port)][0].package;
    ReceiveKeeps(p, package);
    assert Receive(p, package) == p.(labelLen := 0) by {
      assert "" + p.labelBuf[0..] == p.labelBuf;
    }
    v := Next(w, a);
  }

  // Peer 2 sends from port 7, which it does not have, so that its own stamp stays in its
  // buffer. Peer 1 sends twice, the second time to peer 2, and that package has no label.
  // Peer 2 accepts it as a subscription and thereby records itself, at port 7. Its next
  // publish throws at that subscriber, and nothing leaves.
  lemma PublishStopsAtNobody() returns (ws: seq<World>, acts: seq<Action>)
    ensures IsRun(ws, acts) && |acts| == 5 && acts[4].DoPublish? && acts[4].peer == 2 && 2 in ws[4].peers
    ensures ws[4].peers[2].Valid() && |ws[4].Subs(2, SUBSCRIPTIONS)| == 1
    ensures Blocks(ws[4].Subs(2, SUBSCRIPTIONS)[0], ws[4].peers[2].ports, ws[4].Bound())
    ensures var r := Publish(ws[4].peers[2], ws[4].Bound(), acts[4].header, acts[4].body); !r.ok && r.out == []
  {
    hide SocketID, Encode, Decode, Next, Enabled, Inv, IsRun, Receivable, Labelled, LabelOf;
    SocketsDiffer();
    StartsRun();
    var a0 := DoPush(2, Contents(0, 0, Endpoint(2, 7, 9), Port0(1, SUBSCRIPTIONS)), []);
    var a1 := DoPush(1, Header(1, 3, 0), []);
    var a2 := DoPush(1, Header(1, 2, 0), []);
    var a3 := DoServe(2, 0, [10], Verdict(true, []));
    var a4 := DoPublish(2, Header(2, 2, SUBSCRIPTIONS).Swapped(), ["x"]);
    ws, acts := [Start()], [];
    var w1 := PushNowhere(ws[0], a0);
    ws, acts := Extend(ws, acts, a0);
    var stale := w1.peers[2].Label();
    var w2, i1 := PushEffect(w1, a1);
    ws, acts := Extend(ws, acts, a1);
    var w3, i2 := PushEffect(w2, a2);
    ws, acts := Extend(ws, acts, a2);
    assert w3.mail.inboxes[Socket(2)] == [i2];
    BarePackage(i2.package, 1);
    var w4 := StaleSubscription(w3, a3);
    ws, acts := Extend(ws, acts, a3);
    assert w4.peers[2].subs[SUBSCRIPTIONS] == [stale.Swapped()];
    assert w3.Bound() == {Socket(1), Socket(2), Socket(3)};
    StopsAt(w4, stale.Swapped(), a4);
    ws, acts := Extend(ws, acts, a4);
    assert ws[4] == w4 && acts[4] == a4;
  }

  lemma StopsAt(w: World, receipt: Contents, a: Action)
    requires Inv(w) && a.DoPublish? && a.peer in w.peers && w.Bound() == {Socket(1), Socket(2), Socket(3)}
    requires a.header.src.iface in w.peers[a.peer].subs && w.peers[a.peer].subs[a.header.src.iface] == [receipt]
    requires receipt.src.port in w.peers[a.peer].ports && receipt.dest.peer == 2 && receipt.dest.port == 7
    ensures Enabled(w, a) && w.peers[a.peer].Valid() && Blocks(receipt, w.peers[a.peer].ports, w.Bound())
    ensures var r := Publish(w.peers[a.peer], w.Bound(), a.header, a.body); !r.ok && r.out == []
  {
    hide SocketID, Inv, PublishFrom;
    InvPeers(w, a.peer);
    InvMail(w);
    SocketIDInjective(2, 7, 1, 0);
    SocketIDInjective(2, 7, 2, 0);
    SocketIDInjective(2, 7, 3, 0);
    var p := w.peers[a.peer];
    PublishOutcome(p, w.Bound(), a.header, a.body);
    assert Stop([receipt], p.ports, w.Bound()) == 0 && [receipt][..0] == [];
  }
}
