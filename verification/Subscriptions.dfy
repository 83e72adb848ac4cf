/** The subscription index over runs, and publish/subscribe from end to end. */
module Subscriptions {
  import opened Words
  import opened Naming
  import opened Labels
  import opened Wire
  import opened Protocol
  import opened Network
  import opened Runs
  import opened Publishing

  // ---------- the log of acceptances is what was taken

  // The packages that interface i accepted, of those taken from one inbox.
  function AcceptedItems(taken: seq<Taken>, i: u16): seq<Item> {
    if taken == [] then []
    else
      var last := taken[|taken| - 1];
      AcceptedItems(taken[..|taken| - 1], i) + if last.fate == Handled(i, true) then [last.item] else []
  }

  // The packages of the log that came in on one port.
  function LogFrom(log: seq<Acceptance>, port: u16): seq<Item> {
    if log == [] then []
    else
      var last := log[|log| - 1];
      LogFrom(log[..|log| - 1], port) + if last.port == port then [last.item] else []
  }

  lemma AcceptedMore(taken: seq<Taken>, t: Taken, i: u16)
    ensures AcceptedItems(taken + [t], i) ==
            AcceptedItems(taken, i) + if t.fate == Handled(i, true) then [t.item] else []
  {
    assert (taken + [t])[..|taken|] == taken;
  }

  lemma LogMore(log: seq<Acceptance>, a: Acceptance, port: u16)
    ensures LogFrom(log + [a], port) == LogFrom(log, port) + if a.port == port then [a.item] else []
  {
    assert (log + [a])[..|log|] == log;
  }

  // Port by port, the log of a subscription interface is what was taken there and
  // accepted by that interface, in inbox order; no other entries exist.
  ghost predicate LogInv(w: World) {
    LogMatches(w) && LogPlaced(w)
  }

  ghost predicate LogMatches(w: World) {
    forall p, i, port ::
      p in w.peers && port in w.peers[p].ports && Subscribable(w.peers[p], i) ==>
        SocketID(p, port) in w.mail.taken &&
        LogFrom(w.Acceptances(p, i), port) == AcceptedItems(w.mail.taken[SocketID(p, port)], i)
  }

  ghost predicate LogPlaced(w: World) {
    (forall p, i :: (p, i) in w.accepted ==> p in w.peers && Subscribable(w.peers[p], i)) &&
    (forall p, i, k :: (p, i) in w.accepted && 0 <= k < |w.accepted[(p, i)]| ==>
       p in w.peers && w.accepted[(p, i)][k].port in w.peers[p].ports)
  }

  lemma {:induction false} PostAllTaken(m: Mail, from: u16, out: seq<Delivery>)
    ensures PostAll(m, from, out).taken == m.taken
    decreases |out|
  {
    if out != [] {
      PostAllTaken(Post(m, from, out[0]), from, out[1..]);
    }
  }

  // What a step takes, and what becomes of it.
  lemma StepTakes(w: World, a: Action) returns (fate: Fate)
    requires Enabled(w, a)
    ensures !Takes(a) ==> Next(w, a).mail.taken == w.mail.taken
    ensures Takes(a) ==>
              var s := SocketID(a.peer, a.port);
              Next(w, a).mail.taken == w.mail.taken[s := w.mail.taken[s] + [Taken(Head(w, a), fate)]]
    ensures a.DoFetch? ==> fate == Returned
    ensures a.DoAwait? ==>
              var p := w.peers[a.peer];
              |Head(w, a).package.frames| >= 2 &&
              fate == if Receive(p, Head(w, a).package).Label().messageID == p.counter then Matched else WrongID
    ensures a.DoServe? ==>
              var p := w.peers[a.peer];
              |Head(w, a).package.frames| >= 2 &&
              var i := Receive(p, Head(w, a).package).Label().dest.iface;
              fate == if i in p.interfaces then Handled(i, a.verdict.pass) else UnknownInterface
  {
    hide Send, Receive, Publish, Decode, PostAll, SocketID, Receivable, Subscribes;
    var p := w.peers[a.peer];
    fate := UnknownInterface;
    match a
    case DoPush(id, header, body) => PostAllTaken(w.mail, id, Send(p, w.Bound(), header, body).out);
    case DoPublish(id, header, body) => PostAllTaken(w.mail, id, Publish(p, w.Bound(), header, body).out);
    case DoServe(id, port, _, verdict) =>
      ReceivableFrames(Head(w, a).package, a.capacities);
      ReceiveKeeps(p, Head(w, a).package);
      var r := Serve(p, w.Bound(), Head(w, a).package, verdict);
      PostAllTaken(TakeHead(w.mail, SocketID(id, port), r.fate), id, r.out);
      fate := r.fate;
    case DoFetch(_, _, _) => fate := Returned;
    case DoAwait(_, _, _) =>
      ReceivableFrames(Head(w, a).package, a.capacities);
      ReceiveKeeps(p, Head(w, a).package);
      fate := Await(p, Head(w, a).package).1;
  }

  // What a step adds to the log.
  lemma StepLogs(w: World, a: Action)
    requires Enabled(w, a)
    ensures !a.DoServe? ==> Next(w, a).accepted == w.accepted
    ensures a.DoServe? ==>
              var p := w.peers[a.peer];
              |Head(w, a).package.frames| >= 2 &&
              var header := Receive(p, Head(w, a).package).Label();
              var i := header.dest.iface;
              Next(w, a).accepted ==
              if Subscribable(p, i) && a.verdict.pass
              then w.accepted[(a.peer, i) := w.Acceptances(a.peer, i) + [Acceptance(Head(w, a), header, a.port)]]
              else w.accepted
  {
    hide Send, Receive, Publish, Serve, Await, Decode, PostAll, SocketID, Receivable;
    if a.DoServe? {
      ReceivableFrames(Head(w, a).package, a.capacities);
      ReceiveKeeps(w.peers[a.peer], Head(w, a).package);
    }
  }

  // For one port and one interface of one peer: the log stays in step.
  lemma LogInStep(w: World, a: Action, p: u16, i: u16, port: u16, fate: Fate)
    requires Inv(w) && Enabled(w, a) && a.DoServe? && p in w.peers && port in w.peers[p].ports
    requires Subscribable(w.peers[p], i) && SocketID(p, port) in w.mail.taken
    requires |Head(w, a).package.frames| >= 2
    requires var q := w.peers[a.peer];
             var j := Receive(q, Head(w, a).package).Label().dest.iface;
             fate == if j in q.interfaces then Handled(j, a.verdict.pass) else UnknownInterface
    requires LogFrom(w.Acceptances(p, i), port) == AcceptedItems(w.mail.taken[SocketID(p, port)], i)
    ensures SocketID(a.peer, a.port) in w.mail.taken
    ensures var s := SocketID(a.peer, a.port);
            var taken := w.mail.taken[s := w.mail.taken[s] + [Taken(Head(w, a), fate)]];
            LogFrom(Next(w, a).Acceptances(p, i), port) == AcceptedItems(taken[SocketID(p, port)], i)
  {
    hide Next, Inv, SocketID, Receivable, Receive, Decode, LogFrom, AcceptedItems;
    StepLogs(w, a);
    ReceiveKeeps(w.peers[a.peer], Head(w, a).package);
    SocketIDInjective(p, port, a.peer, a.port);
    var header := Receive(w.peers[a.peer], Head(w, a).package).Label();
    AcceptedMore(w.mail.taken[SocketID(p, port)], Taken(Head(w, a), fate), i);
    LogMore(w.Acceptances(p, i), Acceptance(Head(w, a), header, a.port), port);
  }

  // The other steps take nothing that an interface accepted.
  lemma LogUntouched(w: World, a: Action, p: u16, i: u16, port: u16, fate: Fate)
    requires Enabled(w, a) && Takes(a) && !a.DoServe? && SocketID(p, port) in w.mail.taken && !fate.Handled?
    ensures SocketID(a.peer, a.port) in w.mail.taken
    ensures var s := SocketID(a.peer, a.port);
            var taken := w.mail.taken[s := w.mail.taken[s] + [Taken(Head(w, a), fate)]];
            AcceptedItems(taken[SocketID(p, port)], i) == AcceptedItems(w.mail.taken[SocketID(p, port)], i)
  {
    hide SocketID, Receivable, AcceptedItems;
    AcceptedMore(w.mail.taken[SocketID(p, port)], Taken(Head(w, a), fate), i);
  }

  lemma StepKeepsMatches(w: World, a: Action)
    requires Inv(w) && LogMatches(w) && Enabled(w, a)
    ensures LogMatches(Next(w, a))
  {
    hide Next, Inv, SocketID, Receivable, Receive, Decode, LogFrom, AcceptedItems, Head;
    var v := Next(w, a);
    var fate := StepTakes(w, a);
    StepLogs(w, a);
    StepConfig(w, a);
    forall p, i, port | p in v.peers && port in v.peers[p].ports && Subscribable(v.peers[p], i)
      ensures SocketID(p, port) in v.mail.taken
      ensures LogFrom(v.Acceptances(p, i), port) == AcceptedItems(v.mail.taken[SocketID(p, port)], i)
    {
      assert p in w.peers && w.peers[p].SameConfig(v.peers[p]);
      assert Subscribable(w.peers[p], i);
      assert LogFrom(w.Acceptances(p, i), port) == AcceptedItems(w.mail.taken[SocketID(p, port)], i);
      if a.DoServe? {
        LogInStep(w, a, p, i, port, fate);
      } else if Takes(a) {
        LogUntouched(w, a, p, i, port, fate);
      }
    }
  }

  lemma StepKeepsPlaced(w: World, a: Action)
    requires Inv(w) && LogPlaced(w) && Enabled(w, a)
    ensures LogPlaced(Next(w, a))
  {
    hide Next, Inv, SocketID, Receivable, Receive, Decode, Head;
    var v := Next(w, a);
    StepLogs(w, a);
    StepConfig(w, a);
    if a.DoServe? {
      ReceiveKeeps(w.peers[a.peer], Head(w, a).package);
    }
    forall p, i | (p, i) in v.accepted
      ensures p in v.peers && Subscribable(v.peers[p], i)
      ensures forall k :: 0 <= k < |v.accepted[(p, i)]| ==> v.accepted[(p, i)][k].port in v.peers[p].ports
    {
      assert p in w.peers && w.peers[p].SameConfig(v.peers[p]);
    }
  }

  lemma StepKeepsLog(w: World, a: Action)
    requires Inv(w) && LogInv(w) && Enabled(w, a)
    ensures LogInv(Next(w, a))
  {
    hide Next, Inv, Enabled, LogMatches, LogPlaced;
    StepKeepsMatches(w, a);
    StepKeepsPlaced(w, a);
  }

  lemma {:induction false} RunLog(ws: seq<World>, acts: seq<Action>, n: nat)
    requires IsRun(ws, acts) && n < |ws|
    ensures LogInv(ws[n])
    decreases n
  {
    hide Next, Enabled, Inv, SocketID;
    if n > 0 {
      hide LogInv, Initial;
      RunLog(ws, acts, n - 1);
      RunInv(ws, acts, n - 1);
      StepKeepsLog(ws[n - 1], acts[n - 1]);
    }
  }

  // The index of peer p at interface i holds, in the order of acceptance and with
  // repeats, the swapped labels of the packages accepted there, up to Publish's
  // stamp; for a package with a whole label the entry is exact, because it names p
  // as source already and the stamp changes nothing. What was accepted is, port by
  // port and in inbox order, what was taken there and passed by that interface.
  lemma IndexIsAcceptances(ws: seq<World>, acts: seq<Action>, n: nat, p: u16, i: u16)
    requires IsRun(ws, acts) && n < |ws| && p in ws[n].peers
    ensures var subs, log := ws[n].Subs(p, i), ws[n].Acceptances(p, i);
            |subs| == |log| &&
            forall k :: 0 <= k < |subs| ==>
              StampOf(subs[k], log[k].header.Swapped(), p) && subs[k].src.iface == i &&
              (Labelled(log[k].item.package) ==>
                 subs[k] == LabelOf(log[k].item.package).Swapped() && subs[k].src.peer == p &&
                 subs[k].From(p) == subs[k])
    ensures var q, log := ws[n].peers[p], ws[n].Acceptances(p, i);
            (forall k :: 0 <= k < |log| ==> log[k].port in q.ports) && (log != [] ==> Subscribable(q, i)) &&
            forall port :: port in q.ports && Subscribable(q, i) ==>
              SocketID(p, port) in ws[n].mail.taken &&
              LogFrom(log, port) == AcceptedItems(ws[n].mail.taken[SocketID(p, port)], i)
  {
    hide IsRun, SocketID, Decode, MailInv, LogFrom, AcceptedItems;
    RunInv(ws, acts, n);
    RunLog(ws, acts, n);
    var subs, log := ws[n].Subs(p, i), ws[n].Acceptances(p, i);
    assert Indexed(subs, log, p);
    forall k | 0 <= k < |subs|
      ensures StampOf(subs[k], log[k].header.Swapped(), p) && TrueAcceptance(log[k], p, i, ws[n].peers, ws[n].Bound())
    {
      assert ws[n].accepted[(p, i)][k] == log[k];
    }
  }

  // The first n packages accepted on p's interface i came with a whole label.
  ghost predicate AllLabelled(w: World, p: u16, i: u16, n: nat) {
    n <= |w.Acceptances(p, i)| && forall k :: 0 <= k < n ==> Labelled(w.Acceptances(p, i)[k].item.package)
  }

  // Then those subscribers can be reached, and from a port that p has, so that no
  // publish stops before it has served them.
  lemma SubscribersReachable(ws: seq<World>, acts: seq<Action>, n: nat, p: u16, i: u16, upTo: nat)
    requires IsRun(ws, acts) && n < |ws| && p in ws[n].peers && AllLabelled(ws[n], p, i, upTo)
    ensures upTo <= |ws[n].Subs(p, i)|
    ensures AllReachable(ws[n].Subs(p, i)[..upTo], ws[n].peers[p].ports, ws[n].Bound())
    ensures Stop(ws[n].Subs(p, i), ws[n].peers[p].ports, ws[n].Bound()) >= upTo
  {
    hide IsRun, SocketID, Decode, MailInv;
    RunInv(ws, acts, n);
    IndexIsAcceptances(ws, acts, n, p, i);
    var subs, log := ws[n].Subs(p, i), ws[n].Acceptances(p, i);
    forall k | 0 <= k < upTo
      ensures subs[k].src.port in ws[n].peers[p].ports &&
              SocketID(subs[k].dest.peer, subs[k].dest.port) in ws[n].Bound()
    {
      assert ws[n].accepted[(p, i)][k] == log[k];
      assert Labelled(log[k].item.package);
    }
  }

  // ---------- the log of acceptances only grows

  lemma StepKeepsAcceptances(w: World, a: Action, p: u16, i: u16)
    requires Enabled(w, a)
    ensures w.Acceptances(p, i) <= Next(w, a).Acceptances(p, i)
  {
    hide Send, Receive, Serve, Publish, Await, Decode, PostAll, TakeHead, SocketID, Receivable, Subscribes;
    if a.DoServe? {
      ReceivableFrames(Head(w, a).package, a.capacities);
      ReceiveKeeps(w.peers[a.peer], Head(w, a).package);
    }
  }

  lemma {:induction false} RunKeepsAcceptances(ws: seq<World>, acts: seq<Action>, m: nat, n: nat, p: u16, i: u16)
    requires IsRun(ws, acts) && m <= n < |ws|
    ensures ws[m].Acceptances(p, i) <= ws[n].Acceptances(p, i)
    ensures ws[m].peers.Keys == ws[n].peers.Keys
    decreases n
  {
    hide Next, Enabled, Initial;
    if m < n {
      RunKeepsAcceptances(ws, acts, m, n - 1, p, i);
      StepKeepsAcceptances(ws[n - 1], acts[n - 1], p, i);
      StepConfig(ws[n - 1], acts[n - 1]);
    }
  }

  // ---------- from end to end

  lemma {:induction false} PostAllHas(m: Mail, from: u16, out: seq<Delivery>, k: nat) returns (at: nat)
    requires m.Valid() && k < |out| && forall j :: 0 <= j < |out| ==> out[j].target in m.inboxes
    ensures var n := PostAll(m, from, out);
            n.Valid() && out[k].target in n.arrived && |m.arrived[out[k].target]| <= at < |n.arrived[out[k].target]| &&
            n.arrived[out[k].target][at] == Item(out[k].package, from, out[k].serial)
    decreases |out|
  {
    var next := Post(m, from, out[0]);
    if k == 0 {
      at := |m.arrived[out[0].target]|;
      PostGrows(next, from, out[1..], out[0].target);
    } else {
      at := PostAllHas(next, from, out[1..], k - 1);
      assert out[1..][k - 1] == out[k];
    }
  }

  // Between two worlds, the package of `from` with its (k+1)-th stamp after `base` enters
  // the inbox.
  ghost predicate Enters(w: World, v: World, inbox: string, from: u16, base: nat, k: nat, at: nat) {
    inbox in w.mail.arrived && inbox in v.mail.arrived &&
    |w.mail.arrived[inbox]| <= at < |v.mail.arrived[inbox]| &&
    v.mail.arrived[inbox][at].from == from && v.mail.arrived[inbox][at].serial == base + k + 1
  }

  // A published package that is served at the interface it names is handled by it.
  ghost predicate HandledBy(package: Package, subscriber: Endpoint) {
    Labelled(package) && LabelOf(package).dest == subscriber &&
    forall q: PeerState, bound, verdict :: q.Valid() && subscriber.iface in q.interfaces ==>
      Serve(q, bound, package, verdict).fate == Handled(subscriber.iface, verdict.pass)
  }

  // Interface i of peer A subscribed to interface j of peer B: at step m, B served A's
  // push on j and accepted it, behind k earlier ones. When B publishes on j later, at
  // step n, the package for A enters the inbox of the port A subscribed from if and only
  // if the publish does not stop before the k-th receipt. It has the payload if no other
  // package of the publish left before it, a label if that was loaded as well, and with
  // a label any receiver of it that serves it hands it to interface i.
  lemma SubscriptionDelivers(ws: seq<World>, acts: seq<Action>, m: nat, n: nat) returns (k: nat)
    requires IsRun(ws, acts) && m < n < |acts| && acts[m].DoServe? && acts[n].DoPublish? && acts[m].peer == acts[n].peer
    requires Labelled(Head(ws[m], acts[m]).package)
    requires acts[n].header.src.iface == LabelOf(Head(ws[m], acts[m]).package).dest.iface
    requires Subscribes(ws[m].peers[acts[m].peer], Head(ws[m], acts[m]).package, acts[m].verdict)
    ensures var subscriber := LabelOf(Head(ws[m], acts[m]).package).src;
            var inbox := SocketID(subscriber.peer, subscriber.port);
            var w, v, b, j := ws[n], ws[n + 1], acts[n].peer, acts[n].header.src.iface;
            var p, receipts := w.peers[b], w.Subs(b, j);
            k == |ws[m].Acceptances(b, j)| < |receipts| && receipts[k].dest == subscriber &&
            ((exists at: nat :: Enters(w, v, inbox, b, p.serial, k, at)) <==> k < Stop(receipts, p.ports, w.Bound())) &&
            forall at: nat :: Enters(w, v, inbox, b, p.serial, k, at) ==>
              var item := v.mail.arrived[inbox][at];
              var first := Leaves(receipts[..k], p.ports) == 0;
              PublishedTo(Delivery(inbox, item.package, item.serial), receipts[k], p, k, first, acts[n].body) &&
              (first && p.Loaded() ==> HandledBy(item.package, subscriber))
  {
    hide Next, Send, Serve, Receive, Publish, SocketID, Decode, PostAll, TakeHead, Inv, Receivable, Subscribes,
         Encode, Stop, Leaves, LogFrom, AcceptedItems, Subscribable;
    RunStep(ws, acts, m);
    RunStep(ws, acts, n);
    var w, v, b, j := ws[n], ws[n + 1], acts[n].peer, acts[n].header.src.iface;
    k := Accepted(ws, acts, m, n);
    IndexIsAcceptances(ws, acts, n, b, j);
    LocalPort(ws, acts, n, b, j, k);
    RunInv(ws, acts, n);
    InvPeers(w, b);
    InvMail(w);
    var p, receipts := w.peers[b], w.Subs(b, j);
    var inbox := SocketID(receipts[k].dest.peer, receipts[k].dest.port);
    if k < Stop(receipts, p.ports, w.Bound()) {
      var at := Published(w, acts[n], k);
    }
    forall at: nat | Enters(w, v, inbox, b, p.serial, k, at)
      ensures k < Stop(receipts, p.ports, w.Bound()) && inbox in v.mail.arrived && at < |v.mail.arrived[inbox]|
      ensures var item := v.mail.arrived[inbox][at];
              var first := Leaves(receipts[..k], p.ports) == 0;
              PublishedTo(Delivery(inbox, item.package, item.serial), receipts[k], p, k, first, acts[n].body) &&
              (first && p.Loaded() ==> HandledBy(item.package, receipts[k].dest))
    {
      PublishedOnly(w, acts[n], k, at);
      if Leaves(receipts[..k], p.ports) == 0 && p.Loaded() {
        LabelledIsHandled(v.mail.arrived[inbox][at].package, receipts[k].dest);
      }
    }
  }

  lemma LabelledIsHandled(package: Package, subscriber: Endpoint)
    requires Labelled(package) && LabelOf(package).dest == subscriber
    ensures HandledBy(package, subscriber)
  {
    hide Serve, Decode;
    forall q: PeerState, bound, verdict | q.Valid() && subscriber.iface in q.interfaces
      ensures Serve(q, bound, package, verdict).fate == Handled(subscriber.iface, verdict.pass)
    {
      Dispatches(q, bound, package, verdict);
    }
  }

  // A labelled acceptance leaves a receipt with a local port that is there.
  lemma LocalPort(ws: seq<World>, acts: seq<Action>, n: nat, p: u16, i: u16, k: nat)
    requires IsRun(ws, acts) && n < |ws| && p in ws[n].peers && k < |ws[n].Acceptances(p, i)|
    requires Labelled(ws[n].Acceptances(p, i)[k].item.package)
    ensures k < |ws[n].Subs(p, i)| && ws[n].Subs(p, i)[k].src.port in ws[n].peers[p].ports
  {
    hide IsRun, SocketID, Decode, MailInv, LogFrom, AcceptedItems;
    RunInv(ws, acts, n);
    IndexIsAcceptances(ws, acts, n, p, i);
    assert ws[n].accepted[(p, i)][k] == ws[n].Acceptances(p, i)[k];
  }

  // Serving a labelled package goes to the interface its label names.
  lemma Dispatches(q: PeerState, bound: set<string>, package: Package, verdict: Verdict)
    requires q.Valid() && Labelled(package) && LabelOf(package).dest.iface in q.interfaces
    ensures Serve(q, bound, package, verdict).fate == Handled(LabelOf(package).dest.iface, verdict.pass)
  {
    hide Receive, Send, Decode;
    ReceiveKeeps(q, package);
  }

  // Where the subscription accepted at step m stands in the log at step n.
  lemma Accepted(ws: seq<World>, acts: seq<Action>, m: nat, n: nat) returns (k: nat)
    requires IsRun(ws, acts) && m < n < |ws| && m < |acts| && acts[m].DoServe? && Enabled(ws[m], acts[m])
    requires Labelled(Head(ws[m], acts[m]).package)
    requires Subscribes(ws[m].peers[acts[m].peer], Head(ws[m], acts[m]).package, acts[m].verdict)
    ensures var item := Head(ws[m], acts[m]);
            var log := ws[n].Acceptances(acts[m].peer, LabelOf(item.package).dest.iface);
            k == |ws[m].Acceptances(acts[m].peer, LabelOf(item.package).dest.iface)| < |log| &&
            log[k].item == item && acts[m].peer in ws[n].peers
  {
    hide Send, Serve, Receive, SocketID, Decode, PostAll, TakeHead, Receivable;
    RunStep(ws, acts, m);
    var item := Head(ws[m], acts[m]);
    ReceiveKeeps(ws[m].peers[acts[m].peer], item.package);
    var b, j := acts[m].peer, LabelOf(item.package).dest.iface;
    k := |ws[m].Acceptances(b, j)|;
    assert ws[m + 1].Acceptances(b, j)[k].item == item;
    RunKeepsAcceptances(ws, acts, m + 1, n, b, j);
    RunKeepsAcceptances(ws, acts, m, n, b, j);
  }

  // The package for a receipt before the stop enters the subscriber's inbox.
  lemma Published(w: World, a: Action, k: nat) returns (at: nat)
    requires a.DoPublish? && Enabled(w, a) && w.peers[a.peer].id == a.peer
    requires var receipts, ports := w.Subs(a.peer, a.header.src.iface), w.peers[a.peer].ports;
             k < Stop(receipts, ports, w.Bound()) && receipts[k].src.port in ports
    ensures var receipt := w.Subs(a.peer, a.header.src.iface)[k];
            var inbox := SocketID(receipt.dest.peer, receipt.dest.port);
            Enters(w, Next(w, a), inbox, a.peer, w.peers[a.peer].serial, k, at)
  {
    hide PublishFrom, SocketID, Decode, PostAll, Send, Stop, Leaves, Truthful, Blocks;
    var p := w.peers[a.peer];
    var i := a.header.src.iface;
    var r := Publish(p, w.Bound(), a.header, a.body);
    PublishOutcome(p, w.Bound(), a.header, a.body);
    PublishEmits(p, w.Bound(), i, 0, a.body);
    var index := Leaves(p.subs[i][..k], p.ports);
    forall j | 0 <= j < |r.out|
      ensures r.out[j].target in w.mail.inboxes
    {
      TargetBound(r.out[j], p.id, p.ports, w.Bound());
    }
    at := PostAllHas(w.mail, a.peer, r.out, index);
    assert PublishedTo(r.out[index], p.subs[i][k], p, k, index == 0, a.body);
  }

  lemma {:induction false} PostAllCameFrom(m: Mail, from: u16, out: seq<Delivery>, s: string, at: nat) returns (k: nat)
    requires m.Valid() && s in m.inboxes && s in PostAll(m, from, out).arrived
    requires |m.arrived[s]| <= at < |PostAll(m, from, out).arrived[s]|
    ensures k < |out| && out[k].target == s
    ensures PostAll(m, from, out).arrived[s][at] == Item(out[k].package, from, out[k].serial)
    decreases |out|
  {
    var next := Post(m, from, out[0]);
    PostGrows(next, from, out[1..], s);
    if at < |next.arrived[s]| {
      k := 0;
    } else {
      k := PostAllCameFrom(next, from, out[1..], s, at);
      k := k + 1;
    }
  }

  // What enters with the stamp of receipt k is the package for receipt k, and then the
  // publish did not stop before it.
  lemma PublishedOnly(w: World, a: Action, k: nat, at: nat)
    requires a.DoPublish? && Enabled(w, a) && w.peers[a.peer].id == a.peer
    requires k < |w.Subs(a.peer, a.header.src.iface)|
    requires var receipt := w.Subs(a.peer, a.header.src.iface)[k];
             var inbox := SocketID(receipt.dest.peer, receipt.dest.port);
             Enters(w, Next(w, a), inbox, a.peer, w.peers[a.peer].serial, k, at)
    ensures var p, receipts := w.peers[a.peer], w.Subs(a.peer, a.header.src.iface);
            var inbox := SocketID(receipts[k].dest.peer, receipts[k].dest.port);
            var item := Next(w, a).mail.arrived[inbox][at];
            k < Stop(receipts, p.ports, w.Bound()) && receipts[k].src.port in p.ports &&
            PublishedTo(Delivery(inbox, item.package, item.serial), receipts[k], p, k,
                        Leaves(receipts[..k], p.ports) == 0, a.body)
  {
    hide Publish, SocketID, Decode, PostAll, Send, Stop, Leaves, Carries;
    var p, receipts := w.peers[a.peer], w.Subs(a.peer, a.header.src.iface);
    var inbox := SocketID(receipts[k].dest.peer, receipts[k].dest.port);
    var out := Publish(p, w.Bound(), a.header, a.body).out;
    var x := PostAllCameFrom(w.mail, a.peer, out, inbox, at);
    var j := OnlyTheFirstCarries(p, w.Bound(), a.header, a.body, x);
  }
}
