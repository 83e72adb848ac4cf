/**
 What each operation of a peer does, on values: the peer's new state and the
 packages it hands to the network. The methods of class Peer are proved against
 these functions, and the network's runs are built from them.
 */
module Protocol {
  import opened Words
  import opened Naming
  import opened Labels
  import opened Wire
  import opened Ports

  datatype Kind = Pull | Reply | Subscription

  // serial is an auxiliary variable: the number of packages stamped so far,
  // which no operation reads. labelLen is the length of the label message's frame.
  datatype PeerState = PeerState(
    id: u16,
    counter: u32,
    serial: nat,
    labelBuf: string,
    labelLen: nat,
    ports: set<u16>,
    interfaces: map<u16, Kind>,
    subs: map<u16, seq<Contents>>)
  {
    ghost predicate Valid() {
      |labelBuf| == LABEL_SIZE && labelLen <= LABEL_SIZE && counter == serial % MOD32
    }

    // The label's frame would carry a whole label.
    predicate Loaded() { labelLen == LABEL_SIZE }

    function Label(): Contents
      requires |labelBuf| == LABEL_SIZE
    {
      Decode(labelBuf)
    }

    // What no operation of the protocol changes.
    ghost predicate SameConfig(that: PeerState) {
      id == that.id && ports == that.ports && interfaces == that.interfaces
    }
  }

  // A package on its way to a socket; serial is auxiliary.
  datatype Delivery = Delivery(target: string, package: Package, serial: nat)

  // The deliveries of an operation reach their inboxes one after the other.
  ghost function Deliver(packages: map<string, seq<Package>>, out: seq<Delivery>): map<string, seq<Package>>
    decreases |out|
  {
    if out == [] then packages
    else
      var d := out[0];
      var waiting := if d.target in packages then packages[d.target] else [];
      Deliver(packages[d.target := waiting + [d.package]], out[1..])
  }

  lemma {:induction false} DeliverMore(packages: map<string, seq<Package>>, a: seq<Delivery>, b: seq<Delivery>)
    ensures Deliver(packages, a + b) == Deliver(Deliver(packages, a), b)
    decreases |a|
  {
    if a == [] {
      assert a + b == b;
    } else {
      var d := a[0];
      var waiting := if d.target in packages then packages[d.target] else [];
      assert (a + b)[1..] == a[1..] + b;
      DeliverMore(packages[d.target := waiting + [d.package]], a[1..], b);
    }
  }

  lemma DeliverNone(packages: map<string, seq<Package>>)
    ensures Deliver(packages, []) == packages
  {
  }

  lemma DeliverOne(packages: map<string, seq<Package>>, d: Delivery)
    requires d.target in packages
    ensures Deliver(packages, [d]) == packages[d.target := packages[d.target] + [d.package]]
  {
    assert [d][1..] == [];
  }

  // A label frame, and the label in it when it is whole.
  predicate Labelled(p: Package) {
    |p.frames| >= 2 && |p.frames[1]| == LABEL_SIZE
  }

  function LabelOf(p: Package): Contents
    requires Labelled(p)
  {
    Decode(p.frames[1])
  }

  // ---------- sending

  datatype SendResult = SendResult(peer: PeerState, header: Contents, body: seq<string>, out: seq<Delivery>,
                                   outcome: Outcome)

  // SendMessages. The caller's label gets this peer as source; its copy in the
  // label buffer gets the next ID. A frame that was sent is empty afterwards.
  function Send(p: PeerState, bound: set<string>, header: Contents, body: seq<string>): SendResult
    requires |p.labelBuf| == LABEL_SIZE && p.labelLen <= LABEL_SIZE
  {
    var mine := header.From(p.id);
    var counter := (p.counter + 1) % MOD32;
    var q := p.(counter := counter, serial := p.serial + 1, labelBuf := Encode(mine.(messageID := counter)));
    var target := SocketID(mine.dest.peer, mine.dest.port);
    if mine.src.port !in p.ports then SendResult(q, mine, body, [], NoLocalPort)
    else if target !in bound then SendResult(q, mine, body, [], Unroutable)
    else
      var package := Package(SocketID(p.id, mine.src.port), ["", q.labelBuf[..p.labelLen]] + body);
      SendResult(q.(labelLen := 0), mine, Blank(|body|), [Delivery(target, package, q.serial)], Sent)
  }

  function Blank(n: nat): seq<string> {
    seq(n, _ => "")
  }

  datatype PublishResult = PublishResult(peer: PeerState, body: seq<string>, out: seq<Delivery>, ok: bool)

  // The loop of Publish from the k-th receipt on; each receipt is stamped in place.
  function PublishFrom(p: PeerState, bound: set<string>, iface: u16, k: nat, body: seq<string>): PublishResult
    requires |p.labelBuf| == LABEL_SIZE && p.labelLen <= LABEL_SIZE
    requires iface in p.subs && k <= |p.subs[iface]|
    decreases |p.subs[iface]| - k
  {
    if k == |p.subs[iface]| then PublishResult(p, body, [], true)
    else
      var s := Send(p, bound, p.subs[iface][k], body);
      var q := s.peer.(subs := p.subs[iface := p.subs[iface][k := s.header]]);
      if s.outcome == Unroutable then PublishResult(q, s.body, s.out, false)
      else
        var r := PublishFrom(q, bound, iface, k + 1, s.body);
        r.(out := s.out + r.out)
  }

  lemma PublishOnce(p: PeerState, bound: set<string>, iface: u16, k: nat, body: seq<string>)
    requires |p.labelBuf| == LABEL_SIZE && p.labelLen <= LABEL_SIZE
    requires iface in p.subs && k <= |p.subs[iface]|
    ensures k == |p.subs[iface]| ==> PublishFrom(p, bound, iface, k, body) == PublishResult(p, body, [], true)
    ensures k < |p.subs[iface]| ==>
              var s := Send(p, bound, p.subs[iface][k], body);
              var q := s.peer.(subs := p.subs[iface := p.subs[iface][k := s.header]]);
              |q.labelBuf| == LABEL_SIZE && q.labelLen <= LABEL_SIZE &&
              PublishFrom(p, bound, iface, k, body) ==
              if s.outcome == Unroutable then PublishResult(q, s.body, s.out, false)
              else
                var r := PublishFrom(q, bound, iface, k + 1, s.body);
                r.(out := s.out + r.out)
  {
  }

  function Publish(p: PeerState, bound: set<string>, header: Contents, body: seq<string>): PublishResult
    requires |p.labelBuf| == LABEL_SIZE && p.labelLen <= LABEL_SIZE
  {
    if header.src.iface !in p.subs then PublishResult(p, body, [], true)
    else PublishFrom(p, bound, header.src.iface, 0, body)
  }

  // ---------- receiving

  // A package the receive code handles without leaving its buffers: at most ten
  // parts, sent by a peer's port, and fitting the given capacities.
  ghost predicate Receivable(p: Package, capacities: seq<nat>)
  {
    2 <= |p.frames| <= 9 && p.frames[0] == "" && Decoded(p.sender).Some? &&
    capacities != [] && Fits(p.frames[1..], |capacities| + 1, capacities[|capacities| - 1])
  }

  lemma ReceivableFrames(package: Package, capacities: seq<nat>)
    requires Receivable(package, capacities)
    ensures |package.frames| >= 2 && package.frames[0] == "" && Decoded(package.sender).Some?
  {
  }

  // ReceiveMessages, as far as the label message is concerned.
  function Receive(p: PeerState, package: Package): PeerState
    requires |p.labelBuf| == LABEL_SIZE && |package.frames| >= 2
  {
    var frame := Cut(package.frames[1], LABEL_SIZE);
    p.(labelBuf := frame + p.labelBuf[|frame|..], labelLen := |frame|)
  }

  datatype Check = Consistent | BadPort | BadPeer

  // The two checks of ReceiveMessages.
  function CheckSource(header: Contents, sender: string): Check
    requires Decoded(sender).Some?
  {
    var address := Decoded(sender).value;
    if header.src.port != address.port then BadPort
    else if header.src.peer != address.peer then BadPeer
    else Consistent
  }

  function Subscribe(p: PeerState, header: Contents): PeerState {
    var i := header.src.iface;
    p.(subs := p.subs[i := (if i in p.subs then p.subs[i] else []) + [header]])
  }

  // What became of a package that was taken off an inbox.
  datatype Fate = Handled(iface: u16, pass: bool) | UnknownInterface | Returned | Matched | WrongID

  // What a user handler decides; the reply is the frames of the return package.
  datatype Verdict = Verdict(pass: bool, reply: seq<string>)

  datatype ServeResult = ServeResult(peer: PeerState, out: seq<Delivery>, fate: Fate, outcome: Outcome)

  // ServiceInterfaces on a package that was received.
  function Serve(p: PeerState, bound: set<string>, package: Package, verdict: Verdict): ServeResult
    requires |p.labelBuf| == LABEL_SIZE && |package.frames| >= 2
  {
    Dispatch(Receive(p, package), bound, verdict)
  }

  // The interface named in the label buffer handles the package.
  function Dispatch(q: PeerState, bound: set<string>, verdict: Verdict): ServeResult
    requires |q.labelBuf| == LABEL_SIZE && q.labelLen <= LABEL_SIZE
  {
    var header := q.Label();
    var i := header.dest.iface;
    if i !in q.interfaces then ServeResult(q, [], UnknownInterface, Sent)
    else if q.interfaces[i] == Pull || !verdict.pass then ServeResult(q, [], Handled(i, verdict.pass), Sent)
    else if q.interfaces[i] == Reply then
      var s := Send(q, bound, header.Swapped(), verdict.reply);
      ServeResult(s.peer, s.out, Handled(i, verdict.pass), s.outcome)
    else ServeResult(Subscribe(q, header.Swapped()), [], Handled(i, verdict.pass), Sent)
  }

  // One turn of the request loop: is this the package it waits for?
  function Await(p: PeerState, package: Package): (PeerState, Fate)
    requires |p.labelBuf| == LABEL_SIZE && |package.frames| >= 2
  {
    var q := Receive(p, package);
    (q, if q.Label().messageID == q.counter then Matched else WrongID)
  }

  // ---------- what every operation's deliveries are like

  // A delivery by peer `id` that reaches a bound socket. If its label is whole,
  // the label tells the truth about sender, receiver and serial number.
  ghost predicate Truthful(d: Delivery, id: u16, ports: set<u16>, bound: set<string>) {
    d.target in bound &&
    |d.package.frames| >= 2 && d.package.frames[0] == "" && |d.package.frames[1]| <= LABEL_SIZE &&
    (exists port :: port in ports && d.package.sender == SocketID(id, port)) &&
    (Labelled(d.package) ==>
       var header := LabelOf(d.package);
       header.src.peer == id &&
       header.messageID == d.serial % MOD32 &&
       d.package.sender == SocketID(id, header.src.port) &&
       d.target == SocketID(header.dest.peer, header.dest.port))
  }

  // The deliveries of one operation that took p to q: truthful, and in the order
  // of their serial numbers, all of which are new.
  ghost predicate Emitted(p: PeerState, q: PeerState, out: seq<Delivery>, bound: set<string>) {
    q.Valid() && p.SameConfig(q) && p.serial <= q.serial &&
    (forall k :: 0 <= k < |out| ==> Truthful(out[k], p.id, p.ports, bound) && p.serial < out[k].serial <= q.serial) &&
    (forall j, k :: 0 <= j < k < |out| ==> out[j].serial < out[k].serial)
  }

  lemma NextCounter(serial: nat)
    ensures (serial % MOD32 + 1) % MOD32 == (serial + 1) % MOD32
  {
  }

  lemma SendEmits(p: PeerState, bound: set<string>, header: Contents, body: seq<string>)
    requires p.Valid()
    ensures var r := Send(p, bound, header, body);
            Emitted(p, r.peer, r.out, bound) && r.peer.serial == p.serial + 1 && r.peer.subs == p.subs &&
            r.header == header.From(p.id)
  {
    hide SocketID, Encode, Decode;
    var r := Send(p, bound, header, body);
    NextCounter(p.serial);
    LabelRoundTrip(r.header.(messageID := r.peer.counter));
    if r.out != [] {
      var package := r.out[0].package;
      assert package.frames[1] == r.peer.labelBuf[..p.labelLen];
      if Labelled(package) {
        assert package.frames[1] == r.peer.labelBuf;
      }
    }
  }

  lemma {:induction false} PublishEmits(p: PeerState, bound: set<string>, iface: u16, k: nat, body: seq<string>)
    requires p.Valid() && iface in p.subs && k <= |p.subs[iface]|
    ensures var r := PublishFrom(p, bound, iface, k, body);
            Emitted(p, r.peer, r.out, bound)
    decreases |p.subs[iface]| - k
  {
    hide Send, Truthful;
    if k < |p.subs[iface]| {
      var s := Send(p, bound, p.subs[iface][k], body);
      SendEmits(p, bound, p.subs[iface][k], body);
      var q := s.peer.(subs := p.subs[iface := p.subs[iface][k := s.header]]);
      if s.outcome != Unroutable {
        PublishEmits(q, bound, iface, k + 1, s.body);
      }
    }
  }

  lemma ReceiveKeeps(p: PeerState, package: Package)
    requires p.Valid() && |package.frames| >= 2
    ensures var q := Receive(p, package);
            q.Valid() && p.SameConfig(q) && q.serial == p.serial && q.counter == p.counter && q.subs == p.subs
    ensures var q, frame := Receive(p, package), package.frames[1];
            var n := if |frame| > LABEL_SIZE then LABEL_SIZE else |frame|;
            q.labelLen == n && q.labelBuf == frame[..n] + p.labelBuf[n..]
    ensures Labelled(package) ==> Receive(p, package).Loaded() && Receive(p, package).Label() == LabelOf(package)
    ensures package.frames[1] == "" ==> !Receive(p, package).Loaded() && Receive(p, package).Label() == p.Label()
  {
    hide Decode;
    if Labelled(package) {
      assert package.frames[1] + p.labelBuf[LABEL_SIZE..] == package.frames[1];
    }
    if package.frames[1] == "" {
      assert "" + p.labelBuf[0..] == p.labelBuf;
    }
  }

  lemma ServeEmits(p: PeerState, bound: set<string>, package: Package, verdict: Verdict)
    requires p.Valid() && |package.frames| >= 2
    ensures var r := Serve(p, bound, package, verdict);
            Emitted(p, r.peer, r.out, bound)
  {
    hide Send, Truthful, Receive, Decode;
    ReceiveKeeps(p, package);
    var q := Receive(p, package);
    SendEmits(q, bound, q.Label().Swapped(), verdict.reply);
  }
}
