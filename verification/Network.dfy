/**
 A network of peers as a step machine. Each step is one operation of one peer on
 the shared mail; arrived, taken, accepted and answers are history variables that
 no step reads. Peers have unique IDs and fixed ports, and every bound port can
 be reached from every other.
 */
module Network {
  import opened Words
  import opened Naming
  import opened Labels
  import opened Wire
  import opened Protocol

  // A package in an inbox, with the peer and the serial number of its send.
  datatype Item = Item(package: Package, from: u16, serial: nat)

  datatype Taken = Taken(item: Item, fate: Fate)

  // An accepted subscription: the package, the label its handler was shown, and the
  // port it came in on.
  datatype Acceptance = Acceptance(item: Item, header: Contents, port: u16)

  // A reply that was sent, and the request it was sent for.
  datatype Answer = Answer(who: u16, request: Item, reply: Item)

  // Every inbox, with all that ever entered it and all that was taken from it.
  datatype Mail = Mail(
    inboxes: map<string, seq<Item>>,
    arrived: map<string, seq<Item>>,
    taken: map<string, seq<Taken>>)
  {
    ghost predicate Valid() {
      arrived.Keys == inboxes.Keys && taken.Keys == inboxes.Keys
    }
  }

  datatype World = World(
    peers: map<u16, PeerState>,
    mail: Mail,
    accepted: map<(u16, u16), seq<Acceptance>>,
    answers: seq<Answer>)
  {
    function Bound(): set<string> { mail.inboxes.Keys }

    function Acceptances(p: u16, i: u16): seq<Acceptance> {
      if (p, i) in accepted then accepted[(p, i)] else []
    }

    function Subs(p: u16, i: u16): seq<Contents>
      requires p in peers
    {
      if i in peers[p].subs then peers[p].subs[i] else []
    }
  }

  // The operations. A Request is a Push followed by turns of Await. Capacities
  // are those of the messages received into; a verdict is the user handler's.
  datatype Action =
    | DoPush(peer: u16, header: Contents, body: seq<string>)
    | DoPublish(peer: u16, header: Contents, body: seq<string>)
    | DoServe(peer: u16, port: u16, capacities: seq<nat>, verdict: Verdict)
    | DoFetch(peer: u16, port: u16, capacities: seq<nat>)
    | DoAwait(peer: u16, port: u16, capacities: seq<nat>)

  // ---------- the mail

  function Post(m: Mail, from: u16, d: Delivery): Mail {
    if d.target in m.inboxes && d.target in m.arrived then
      var item := Item(d.package, from, d.serial);
      m.(inboxes := m.inboxes[d.target := m.inboxes[d.target] + [item]],
         arrived := m.arrived[d.target := m.arrived[d.target] + [item]])
    else m
  }

  function PostAll(m: Mail, from: u16, out: seq<Delivery>): Mail
    decreases |out|
  {
    if out == [] then m else PostAll(Post(m, from, out[0]), from, out[1..])
  }

  function TakeHead(m: Mail, socket: string, fate: Fate): Mail
    requires socket in m.inboxes && m.inboxes[socket] != [] && socket in m.taken
  {
    m.(inboxes := m.inboxes[socket := m.inboxes[socket][1..]],
       taken := m.taken[socket := m.taken[socket] + [Taken(m.inboxes[socket][0], fate)]])
  }

  function ItemsOf(taken: seq<Taken>): seq<Item> {
    seq(|taken|, i requires 0 <= i < |taken| => taken[i].item)
  }

  // The packages in the inboxes, without the history.
  function Inboxes(m: Mail): map<string, seq<Package>> {
    map s | s in m.inboxes :: PackagesOf(m.inboxes[s])
  }

  function PackagesOf(items: seq<Item>): seq<Package> {
    seq(|items|, i requires 0 <= i < |items| => items[i].package)
  }

  // Posting is delivering.
  lemma {:induction false} PostAllDelivers(m: Mail, from: u16, out: seq<Delivery>)
    requires m.Valid() && forall k :: 0 <= k < |out| ==> out[k].target in m.inboxes
    ensures PostAll(m, from, out).Valid() && Inboxes(PostAll(m, from, out)) == Deliver(Inboxes(m), out)
    ensures PostAll(m, from, out).inboxes.Keys == m.inboxes.Keys
    decreases |out|
  {
    if out != [] {
      var d := out[0];
      var next := Post(m, from, d);
      assert PackagesOf(next.inboxes[d.target]) == PackagesOf(m.inboxes[d.target]) + [d.package];
      assert Inboxes(next) == Inboxes(m)[d.target := Inboxes(m)[d.target] + [d.package]];
      PostAllDelivers(next, from, out[1..]);
    }
  }

  lemma TakeHeadTakes(m: Mail, s: string, fate: Fate)
    requires m.Valid() && s in m.inboxes && m.inboxes[s] != []
    ensures TakeHead(m, s, fate).Valid()
    ensures Inboxes(TakeHead(m, s, fate)) == Inboxes(m)[s := Inboxes(m)[s][1..]]
  {
    assert PackagesOf(m.inboxes[s][1..]) == PackagesOf(m.inboxes[s])[1..];
  }

  // ---------- the steps

  // The action takes a package off an inbox.
  predicate Takes(a: Action) {
    !a.DoPush? && !a.DoPublish?
  }

  ghost predicate Enabled(w: World, a: Action) {
    a.peer in w.peers && w.peers[a.peer].Valid() && w.mail.Valid() &&
    (Takes(a) ==>
       a.port in w.peers[a.peer].ports &&
       var socket := SocketID(a.peer, a.port);
       socket in w.mail.inboxes && w.mail.inboxes[socket] != [] &&
       Receivable(w.mail.inboxes[socket][0].package, a.capacities))
  }

  function Head(w: World, a: Action): Item
    requires Takes(a)
    requires SocketID(a.peer, a.port) in w.mail.inboxes && w.mail.inboxes[SocketID(a.peer, a.port)] != []
  {
    w.mail.inboxes[SocketID(a.peer, a.port)][0]
  }

  ghost function Next(w: World, a: Action): World
    requires Enabled(w, a)
  {
    var p := w.peers[a.peer];
    match a
    case DoPush(id, header, body) =>
      var r := Send(p, w.Bound(), header, body);
      w.(peers := w.peers[id := r.peer], mail := PostAll(w.mail, id, r.out))
    case DoPublish(id, header, body) =>
      var r := Publish(p, w.Bound(), header, body);
      w.(peers := w.peers[id := r.peer], mail := PostAll(w.mail, id, r.out))
    case DoServe(id, port, _, verdict) =>
      var item := Head(w, a);
      var r := Serve(p, w.Bound(), item.package, verdict);
      var header := Receive(p, item.package).Label();
      var i := header.dest.iface;
      World(
        w.peers[id := r.peer],
        PostAll(TakeHead(w.mail, SocketID(id, port), r.fate), id, r.out),
        if Subscribes(p, item.package, verdict)
        then w.accepted[(id, i) := w.Acceptances(id, i) + [Acceptance(item, header, port)]]
        else w.accepted,
        if r.out == [] then w.answers
        else w.answers + [Answer(id, item, Item(r.out[0].package, id, r.out[0].serial))])
    case DoFetch(id, port, _) =>
      w.(peers := w.peers[id := Receive(p, Head(w, a).package)],
         mail := TakeHead(w.mail, SocketID(id, port), Returned))
    case DoAwait(id, port, _) =>
      var (q, fate) := Await(p, Head(w, a).package);
      w.(peers := w.peers[id := q], mail := TakeHead(w.mail, SocketID(id, port), fate))
  }

  predicate Subscribable(p: PeerState, i: u16) {
    i in p.interfaces && p.interfaces[i] == Subscription
  }

  // Serving the package records a subscription.
  predicate Subscribes(p: PeerState, package: Package, verdict: Verdict)
    requires |p.labelBuf| == LABEL_SIZE && |package.frames| >= 2
  {
    Subscribable(p, Receive(p, package).Label().dest.iface) && verdict.pass
  }

  ghost predicate Initial(w: World) {
    w.mail.Valid() && w.accepted == map[] && w.answers == [] &&
    (forall s :: s in w.mail.inboxes ==> w.mail.inboxes[s] == [] && w.mail.arrived[s] == [] && w.mail.taken[s] == []) &&
    (forall p :: p in w.peers ==>
       var q := w.peers[p];
       q.id == p && q.Valid() && q.serial == 0 && q.Loaded() && q.subs == map[] &&
       forall port :: port in q.ports ==> SocketID(p, port) in w.mail.inboxes)
  }

  // A run: the worlds it goes through, and the actions between them.
  ghost predicate IsRun(ws: seq<World>, acts: seq<Action>) {
    |ws| == |acts| + 1 && Initial(ws[0]) &&
    forall i :: 0 <= i < |acts| ==> Enabled(ws[i], acts[i]) && ws[i + 1] == Next(ws[i], acts[i])
  }

  // ---------- what every reachable world satisfies

  ghost predicate PeersValid(peers: map<u16, PeerState>, bound: set<string>) {
    forall p :: p in peers ==>
      peers[p].id == p && peers[p].Valid() &&
      forall port :: port in peers[p].ports ==> SocketID(p, port) in bound
  }

  // Every package that entered an inbox was taken, in arrival order, or still waits.
  ghost predicate Conserved(m: Mail) {
    m.Valid() && forall s :: s in m.inboxes ==> m.arrived[s] == ItemsOf(m.taken[s]) + m.inboxes[s]
  }

  // What entered inbox s was sent by a peer of the network, and if its label is
  // whole, the label tells the truth.
  ghost predicate HonestItem(item: Item, s: string, peers: map<u16, PeerState>, bound: set<string>) {
    item.from in peers && 1 <= item.serial <= peers[item.from].serial &&
    Truthful(Delivery(s, item.package, item.serial), item.from, peers[item.from].ports, bound)
  }

  ghost predicate Honest(m: Mail, peers: map<u16, PeerState>) {
    forall s, k :: s in m.arrived && 0 <= k < |m.arrived[s]| ==>
      HonestItem(m.arrived[s][k], s, peers, m.inboxes.Keys)
  }

  // No two arrivals are the same send, and packages of one sender arrive in one
  // inbox in the order they were sent.
  ghost predicate Distinct(m: Mail) {
    (forall s, j, k :: s in m.arrived && 0 <= j < k < |m.arrived[s]| && m.arrived[s][j].from == m.arrived[s][k].from ==>
       m.arrived[s][j].serial < m.arrived[s][k].serial) &&
    (forall s, j, t, k ::
       s in m.arrived && t in m.arrived && s != t && 0 <= j < |m.arrived[s]| && 0 <= k < |m.arrived[t]| ==>
         m.arrived[s][j].from == m.arrived[t][k].from ==> m.arrived[s][j].serial != m.arrived[t][k].serial)
  }

  ghost predicate MailInv(m: Mail, peers: map<u16, PeerState>) {
    Conserved(m) && Honest(m, peers) && Distinct(m)
  }

  // The serial numbers of p's arrivals go up to n at most.
  ghost predicate UpTo(m: Mail, p: u16, n: nat) {
    forall s, k :: s in m.arrived && 0 <= k < |m.arrived[s]| && m.arrived[s][k].from == p ==>
      m.arrived[s][k].serial <= n
  }

  // The subscriptions of p on interface i are the swapped labels of the accepted
  // packages, one for one, except that Publish may have stamped p as source.
  ghost predicate Indexed(subs: seq<Contents>, acceptances: seq<Acceptance>, p: u16) {
    |subs| == |acceptances| &&
    forall k :: 0 <= k < |subs| ==> StampOf(subs[k], acceptances[k].header.Swapped(), p)
  }

  ghost predicate StampOf(now: Contents, was: Contents, p: u16) {
    now == was || now == was.From(p)
  }

  // An accepted package whose label is whole was addressed to the port it was
  // accepted on, its handler was shown that label, and its sender can be reached.
  ghost predicate TrueAcceptance(a: Acceptance, p: u16, i: u16, peers: map<u16, PeerState>, bound: set<string>) {
    p in peers && a.header.dest.iface == i && |a.item.package.frames| >= 2 &&
    (Labelled(a.item.package) ==>
       a.header == LabelOf(a.item.package) && a.header.dest.peer == p && a.header.dest.port in peers[p].ports &&
       SocketID(a.header.src.peer, a.header.src.port) in bound)
  }

  ghost predicate IndexInv(w: World) {
    (forall p, i :: p in w.peers ==> Indexed(w.Subs(p, i), w.Acceptances(p, i), p)) &&
    (forall p, i, k :: (p, i) in w.accepted && 0 <= k < |w.accepted[(p, i)]| ==>
       TrueAcceptance(w.accepted[(p, i)][k], p, i, w.peers, w.Bound()))
  }

  ghost predicate Inv(w: World) {
    PeersValid(w.peers, w.Bound()) && MailInv(w.mail, w.peers) && IndexInv(w)
  }

  // ---------- the mail keeps its invariant

  lemma TargetBound(d: Delivery, p: u16, ports: set<u16>, bound: set<string>)
    requires Truthful(d, p, ports, bound)
    ensures d.target in bound
  {
  }

  lemma TargetsBound(p: PeerState, q: PeerState, out: seq<Delivery>, bound: set<string>)
    requires Emitted(p, q, out, bound)
    ensures forall k :: 0 <= k < |out| ==> out[k].target in bound
  {
    forall k | 0 <= k < |out|
      ensures out[k].target in bound
    {
      TargetBound(out[k], p.id, p.ports, bound);
    }
  }

  lemma PostConserves(m: Mail, p: u16, d: Delivery)
    requires Conserved(m)
    ensures Conserved(Post(m, p, d)) && Post(m, p, d).inboxes.Keys == m.inboxes.Keys
  {
    if d.target in m.inboxes {
      var n := Post(m, p, d);
      var item := Item(d.package, p, d.serial);
      var t := d.target;
      assert n.arrived[t] == ItemsOf(n.taken[t]) + n.inboxes[t] by {
        assert m.arrived[t] + [item] == ItemsOf(m.taken[t]) + (m.inboxes[t] + [item]);
      }
    }
  }

  lemma PostHonest(m: Mail, peers: map<u16, PeerState>, p: u16, d: Delivery)
    requires m.Valid() && Honest(m, peers) && HonestItem(Item(d.package, p, d.serial), d.target, peers, m.inboxes.Keys)
    ensures Honest(Post(m, p, d), peers)
  {
    hide HonestItem;
    if d.target in m.inboxes {
      var n := Post(m, p, d);
      assert n.inboxes.Keys == m.inboxes.Keys;
    }
  }

  lemma PostDistinct(m: Mail, p: u16, d: Delivery)
    requires m.Valid() && Distinct(m) && d.serial >= 1 && UpTo(m, p, d.serial - 1)
    ensures Distinct(Post(m, p, d)) && UpTo(Post(m, p, d), p, d.serial)
  {
  }

  lemma PostKeeps(m: Mail, peers: map<u16, PeerState>, p: u16, d: Delivery)
    requires MailInv(m, peers) && p in peers
    requires Truthful(d, p, peers[p].ports, m.inboxes.Keys)
    requires d.serial >= 1 && UpTo(m, p, d.serial - 1) && d.serial <= peers[p].serial
    ensures MailInv(Post(m, p, d), peers) && UpTo(Post(m, p, d), p, d.serial)
    ensures Post(m, p, d).inboxes.Keys == m.inboxes.Keys
  {
    hide Truthful, Conserved, Honest, Distinct, UpTo, Post;
    assert m.Valid() by { ConservedValid(m); }
    assert Delivery(d.target, d.package, d.serial) == d;
    PostConserves(m, p, d);
    PostHonest(m, peers, p, d);
    PostDistinct(m, p, d);
  }

  lemma ConservedValid(m: Mail)
    requires Conserved(m)
    ensures m.Valid()
  {
  }

  lemma {:induction false} PostAllKeeps(m: Mail, peers: map<u16, PeerState>, p: u16, out: seq<Delivery>, n: nat)
    requires MailInv(m, peers) && p in peers && UpTo(m, p, n)
    requires forall k :: 0 <= k < |out| ==>
               Truthful(out[k], p, peers[p].ports, m.inboxes.Keys) && n < out[k].serial <= peers[p].serial
    requires forall j, k :: 0 <= j < k < |out| ==> out[j].serial < out[k].serial
    ensures MailInv(PostAll(m, p, out), peers)
    ensures PostAll(m, p, out).inboxes.Keys == m.inboxes.Keys
    decreases |out|
  {
    hide Truthful, MailInv, Post;
    if out != [] {
      PostWeaken(m, p, n, out[0].serial - 1);
      PostKeeps(m, peers, p, out[0]);
      PostAllKeeps(Post(m, p, out[0]), peers, p, out[1..], out[0].serial);
    }
  }

  lemma PostWeaken(m: Mail, p: u16, n: nat, k: nat)
    requires UpTo(m, p, n) && n <= k
    ensures UpTo(m, p, k)
  {
  }

  lemma TakeConserves(m: Mail, s: string, fate: Fate)
    requires Conserved(m) && s in m.inboxes && m.inboxes[s] != []
    ensures Conserved(TakeHead(m, s, fate))
    ensures TakeHead(m, s, fate).inboxes.Keys == m.inboxes.Keys
  {
    var n := TakeHead(m, s, fate);
    assert n.inboxes.Keys == m.inboxes.Keys;
    assert n.arrived[s] == ItemsOf(n.taken[s]) + n.inboxes[s] by {
      assert ItemsOf(n.taken[s]) == ItemsOf(m.taken[s]) + [m.inboxes[s][0]];
      assert m.inboxes[s] == [m.inboxes[s][0]] + m.inboxes[s][1..];
    }
  }

  lemma TakeKeeps(m: Mail, peers: map<u16, PeerState>, s: string, fate: Fate)
    requires MailInv(m, peers) && s in m.inboxes && m.inboxes[s] != []
    ensures MailInv(TakeHead(m, s, fate), peers)
    ensures TakeHead(m, s, fate).inboxes.Keys == m.inboxes.Keys
  {
    hide HonestItem;
    TakeConserves(m, s, fate);
  }

  // A peer that has only moved on leaves the mail as honest as it was.
  lemma PeerMovesOn(m: Mail, peers: map<u16, PeerState>, p: u16, q: PeerState)
    requires MailInv(m, peers) && p in peers && q.ports == peers[p].ports && peers[p].serial <= q.serial
    ensures MailInv(m, peers[p := q])
  {
    hide Truthful;
  }

  lemma OwnSerials(m: Mail, peers: map<u16, PeerState>, p: u16)
    requires Honest(m, peers) && p in peers
    ensures UpTo(m, p, peers[p].serial)
  {
    hide Truthful;
    forall s, k | s in m.arrived && 0 <= k < |m.arrived[s]| && m.arrived[s][k].from == p
      ensures m.arrived[s][k].serial <= peers[p].serial
    {
      assert HonestItem(m.arrived[s][k], s, peers, m.inboxes.Keys);
    }
  }

  // One operation of peer p, whatever it was, keeps the mail invariant.
  lemma OperationKeeps(m: Mail, peers: map<u16, PeerState>, p: u16, q: PeerState, out: seq<Delivery>)
    requires MailInv(m, peers) && p in peers && peers[p].id == p && Emitted(peers[p], q, out, m.inboxes.Keys)
    ensures MailInv(PostAll(m, p, out), peers[p := q])
    ensures PostAll(m, p, out).inboxes.Keys == m.inboxes.Keys
  {
    hide Truthful, MailInv, PostAll;
    MailInvParts(m, peers);
    OwnSerials(m, peers, p);
    PeerMovesOn(m, peers, p, q);
    PostAllKeeps(m, peers[p := q], p, out, peers[p].serial);
  }

  lemma MailInvParts(m: Mail, peers: map<u16, PeerState>)
    requires MailInv(m, peers)
    ensures Honest(m, peers) && Conserved(m) && Distinct(m)
  {
  }
}
