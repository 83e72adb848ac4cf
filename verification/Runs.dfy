/** What holds in every world of every run. */
module Runs {
  import opened Words
  import opened Naming
  import opened Labels
  import opened Wire
  import opened Protocol
  import opened Network

  // ---------- each step keeps the invariant

  // The package a step takes entered the inbox it is taken from.
  lemma HeadArrived(w: World, a: Action)
    requires Inv(w) && Enabled(w, a) && Takes(a)
    ensures var s := SocketID(a.peer, a.port);
            s in w.mail.arrived && |w.mail.taken[s]| < |w.mail.arrived[s]| &&
            w.mail.arrived[s][|w.mail.taken[s]|] == Head(w, a) &&
            HonestItem(Head(w, a), s, w.peers, w.Bound())
  {
    hide HonestItem, Receivable, SocketID, IndexInv;
    var s := SocketID(a.peer, a.port);
    assert w.mail.arrived[s] == ItemsOf(w.mail.taken[s]) + w.mail.inboxes[s];
    assert w.mail.arrived[s][|w.mail.taken[s]|] == w.mail.inboxes[s][0];
  }

  // If its label is whole, it is addressed to the very port it is taken from.
  lemma HeadAddressed(w: World, a: Action)
    requires Inv(w) && Enabled(w, a) && Takes(a) && Labelled(Head(w, a).package)
    ensures var header := LabelOf(Head(w, a).package);
            header.dest.peer == a.peer && header.dest.port == a.port &&
            header.src.peer == Head(w, a).from && header.messageID == Head(w, a).serial % MOD32 &&
            Head(w, a).package.sender == SocketID(header.src.peer, header.src.port)
  {
    hide SocketID, Inv, Receivable, Decode;
    HeadArrived(w, a);
    var header := LabelOf(Head(w, a).package);
    SocketIDInjective(header.dest.peer, header.dest.port, a.peer, a.port);
  }

  // The socket a package came from is there to be answered.
  lemma SenderBound(w: World, a: Action)
    requires Inv(w) && Enabled(w, a) && Takes(a)
    ensures Head(w, a).package.sender in w.Bound()
  {
    hide SocketID, Decode, IndexInv, Receivable, Labelled;
    HeadArrived(w, a);
    var item := Head(w, a);
    var port :| port in w.peers[item.from].ports && item.package.sender == SocketID(item.from, port);
  }

  // No step changes who the peers are, their ports or their interfaces.
  lemma StepConfig(w: World, a: Action)
    requires Enabled(w, a)
    ensures Next(w, a).peers.Keys == w.peers.Keys
    ensures forall p :: p in w.peers ==> w.peers[p].SameConfig(Next(w, a).peers[p])
  {
    hide Send, Receive, Serve, PublishFrom, Decode, PostAll, TakeHead, SocketID, Receivable, Subscribes;
    var p := w.peers[a.peer];
    match a
    case DoPush(_, header, body) => SendEmits(p, w.Bound(), header, body);
    case DoPublish(_, header, body) =>
      if header.src.iface in p.subs {
        PublishEmits(p, w.Bound(), header.src.iface, 0, body);
      }
    case DoServe(_, _, _, verdict) =>
      ReceivableFrames(Head(w, a).package, a.capacities);
      ServeEmits(p, w.Bound(), Head(w, a).package, verdict);
    case DoFetch(_, _, _) =>
      ReceivableFrames(Head(w, a).package, a.capacities);
      ReceiveKeeps(p, Head(w, a).package);
    case DoAwait(_, _, _) =>
      ReceivableFrames(Head(w, a).package, a.capacities);
      AwaitReceives(p, Head(w, a).package);
      ReceiveKeeps(p, Head(w, a).package);
  }

  ghost predicate Stamped(now: seq<Contents>, was: seq<Contents>, p: u16) {
    |now| == |was| && forall k :: 0 <= k < |now| ==> StampOf(now[k], was[k], p)
  }

  // Publish changes no subscription but for its own stamp.
  lemma {:induction false} PublishStamps(p: PeerState, bound: set<string>, iface: u16, k: nat, body: seq<string>)
    requires p.Valid() && iface in p.subs && k <= |p.subs[iface]|
    ensures var q := PublishFrom(p, bound, iface, k, body).peer;
            q.subs.Keys == p.subs.Keys && forall i :: i in p.subs ==> Stamped(q.subs[i], p.subs[i], p.id)
    decreases |p.subs[iface]| - k
  {
    hide Send, Emitted;
    if k < |p.subs[iface]| {
      var s := Send(p, bound, p.subs[iface][k], body);
      SendKeepsConfig(p, bound, p.subs[iface][k], body);
      var q := s.peer.(subs := p.subs[iface := p.subs[iface][k := s.header]]);
      assert q.subs.Keys == p.subs.Keys;
      assert forall i :: i in p.subs ==> Stamped(q.subs[i], p.subs[i], p.id);
      if s.outcome != Unroutable {
        PublishStamps(q, bound, iface, k + 1, s.body);
      }
    }
  }

  lemma SendKeepsConfig(p: PeerState, bound: set<string>, header: Contents, body: seq<string>)
    requires p.Valid()
    ensures var r := Send(p, bound, header, body);
            r.peer.Valid() && r.peer.id == p.id && r.peer.subs == p.subs && r.header == header.From(p.id)
  {
    hide Send;
    SendEmits(p, bound, header, body);
  }

  lemma StampedIndex(now: seq<Contents>, was: seq<Contents>, acceptances: seq<Acceptance>, p: u16)
    requires Stamped(now, was, p) && Indexed(was, acceptances, p)
    ensures Indexed(now, acceptances, p)
  {
  }

  // Only Publish's stamps and accepted subscriptions touch the index.
  lemma StepIndex(w: World, a: Action)
    requires Inv(w) && Enabled(w, a) && !a.DoServe?
    ensures forall q, i :: q in Next(w, a).peers ==> Indexed(Next(w, a).Subs(q, i), Next(w, a).Acceptances(q, i), q)
  {
    hide Send, Receive, PublishFrom, PostAll, TakeHead, MailInv, Emitted, TrueAcceptance, Await, SocketID,
         Receivable;
    var p := w.peers[a.peer];
    var v := Next(w, a);
    forall q, i | q in v.peers
      ensures Indexed(v.Subs(q, i), v.Acceptances(q, i), q)
    {
      assert Indexed(w.Subs(q, i), w.Acceptances(q, i), q);
      if q == a.peer {
        match a
        case DoPush(_, header, body) => SendKeepsConfig(p, w.Bound(), header, body);
        case DoPublish(_, header, body) =>
          if header.src.iface in p.subs {
            PublishStamps(p, w.Bound(), header.src.iface, 0, body);
            if i in p.subs {
              StampedIndex(v.Subs(q, i), w.Subs(q, i), w.Acceptances(q, i), q);
            }
          }
        case DoFetch(_, _, _) =>
          ReceivableFrames(Head(w, a).package, a.capacities);
          ReceiveKeeps(p, Head(w, a).package);
        case DoAwait(_, _, _) =>
          ReceivableFrames(Head(w, a).package, a.capacities);
          AwaitReceives(p, Head(w, a).package);
      }
    }
  }

  lemma AwaitReceives(p: PeerState, package: Package)
    requires p.Valid() && |package.frames| >= 2
    ensures Await(p, package).0 == Receive(p, package) && Receive(p, package).subs == p.subs
  {
  }

  lemma ServeSubs(p: PeerState, bound: set<string>, package: Package, verdict: Verdict)
    requires p.Valid() && |package.frames| >= 2
    ensures var q := Serve(p, bound, package, verdict).peer;
            var header := Receive(p, package).Label();
            q.subs == if Subscribes(p, package, verdict) then Subscribe(p, header.Swapped()).subs else p.subs
  {
    hide Send, Receive, Decode, Emitted;
    ReceiveKeeps(p, package);
    var q := Receive(p, package);
    SendEmits(q, bound, q.Label().Swapped(), verdict.reply);
  }

  lemma ServeIndex(w: World, a: Action)
    requires Inv(w) && Enabled(w, a) && a.DoServe?
    ensures forall q, i :: q in Next(w, a).peers ==> Indexed(Next(w, a).Subs(q, i), Next(w, a).Acceptances(q, i), q)
  {
    hide Send, Receive, Serve, Decode, PostAll, TakeHead, MailInv, TrueAcceptance, SocketID, Receivable,
         Subscribes;
    var p := w.peers[a.peer];
    var v := Next(w, a);
    var package := Head(w, a).package;
    ReceivableFrames(package, a.capacities);
    ServeSubs(p, w.Bound(), package, a.verdict);
    forall q, i | q in v.peers
      ensures Indexed(v.Subs(q, i), v.Acceptances(q, i), q)
    {
      assert Indexed(w.Subs(q, i), w.Acceptances(q, i), q);
    }
  }

  // What is recorded as accepted stays true, and so is what a step adds.
  lemma StepAccepts(w: World, a: Action)
    requires Inv(w) && Enabled(w, a) && Next(w, a).Bound() == w.Bound()
    ensures var v := Next(w, a);
            forall q, i, k :: (q, i) in v.accepted && 0 <= k < |v.accepted[(q, i)]| ==>
              TrueAcceptance(v.accepted[(q, i)][k], q, i, v.peers, v.Bound())
  {
    hide Send, Receive, Serve, Publish, Await, Decode, PostAll, TakeHead, MailInv, SocketID, Receivable,
         Subscribes, Indexed, Labelled;
    var v := Next(w, a);
    StepConfig(w, a);
    if a.DoServe? {
      ReceivableFrames(Head(w, a).package, a.capacities);
      ReceiveKeeps(w.peers[a.peer], Head(w, a).package);
      ServedAcceptance(w, a);
    }
    forall q, i, k | (q, i) in v.accepted && 0 <= k < |v.accepted[(q, i)]|
      ensures TrueAcceptance(v.accepted[(q, i)][k], q, i, v.peers, v.Bound())
    {
      if (q, i) in w.accepted && k < |w.accepted[(q, i)]| {
        assert TrueAcceptance(w.accepted[(q, i)][k], q, i, w.peers, w.Bound());
      }
    }
  }

  lemma ServedAcceptance(w: World, a: Action)
    requires Inv(w) && Enabled(w, a) && a.DoServe?
    ensures var header := Receive(w.peers[a.peer], Head(w, a).package).Label();
            TrueAcceptance(Acceptance(Head(w, a), header, a.port), a.peer, header.dest.iface, w.peers, w.Bound())
  {
    hide SocketID, Decode, Inv, Receive, Receivable;
    var package := Head(w, a).package;
    ReceivableFrames(package, a.capacities);
    ReceiveKeeps(w.peers[a.peer], package);
    if Labelled(package) {
      HeadAddressed(w, a);
      SenderBound(w, a);
    }
  }

  // What a step does to the mail and the peers keeps their invariants.
  lemma StepMail(w: World, a: Action)
    requires Inv(w) && Enabled(w, a)
    ensures var v := Next(w, a);
            PeersValid(v.peers, v.Bound()) && MailInv(v.mail, v.peers) && v.mail.inboxes.Keys == w.mail.inboxes.Keys
  {
    hide Send, Receive, Serve, PublishFrom, Decode, PostAll, TakeHead, MailInv, Emitted, SocketID,
         Receivable, IndexInv, Subscribes;
    var p := w.peers[a.peer];
    var m := w.mail;
    match a
    case DoPush(id, header, body) =>
      SendEmits(p, w.Bound(), header, body);
      var r := Send(p, w.Bound(), header, body);
      OperationOutcome(w, id, m, r.peer, r.out);
    case DoPublish(id, header, body) =>
      var r := Publish(p, w.Bound(), header, body);
      if header.src.iface in p.subs {
        PublishEmits(p, w.Bound(), header.src.iface, 0, body);
      } else {
        NothingEmitted(p, p, w.Bound());
      }
      OperationOutcome(w, id, m, r.peer, r.out);
    case DoServe(id, port, _, verdict) =>
      var package := Head(w, a).package;
      ReceivableFrames(package, a.capacities);
      ServeEmits(p, w.Bound(), package, verdict);
      var r := Serve(p, w.Bound(), package, verdict);
      TakeKeeps(m, w.peers, SocketID(id, port), r.fate);
      OperationOutcome(w, id, TakeHead(m, SocketID(id, port), r.fate), r.peer, r.out);
    case DoFetch(id, port, _) =>
      var package := Head(w, a).package;
      ReceivableFrames(package, a.capacities);
      TakeOutcome(w, id, SocketID(id, port), package, Returned);
    case DoAwait(id, port, _) =>
      var package := Head(w, a).package;
      ReceivableFrames(package, a.capacities);
      AwaitReceives(p, package);
      TakeOutcome(w, id, SocketID(id, port), package, Await(p, package).1);
  }

  lemma NothingEmitted(p: PeerState, q: PeerState, bound: set<string>)
    requires q.Valid() && p.SameConfig(q) && p.serial <= q.serial
    ensures Emitted(p, q, [], bound)
  {
  }

  lemma OperationOutcome(w: World, id: u16, m: Mail, q: PeerState, out: seq<Delivery>)
    requires PeersValid(w.peers, w.Bound()) && id in w.peers && MailInv(m, w.peers) && m.inboxes.Keys == w.Bound()
    requires Emitted(w.peers[id], q, out, m.inboxes.Keys)
    ensures MailInv(PostAll(m, id, out), w.peers[id := q])
    ensures PostAll(m, id, out).inboxes.Keys == m.inboxes.Keys
    ensures PeersValid(w.peers[id := q], w.Bound())
  {
    hide PostAll, MailInv, SocketID;
    OperationKeeps(m, w.peers, id, q, out);
  }

  lemma TakeOutcome(w: World, id: u16, s: string, package: Package, fate: Fate)
    requires PeersValid(w.peers, w.Bound()) && id in w.peers && MailInv(w.mail, w.peers) && |package.frames| >= 2
    requires w.mail.Valid() && s in w.mail.inboxes && w.mail.inboxes[s] != []
    ensures var q := Receive(w.peers[id], package);
            var n := TakeHead(w.mail, s, fate);
            MailInv(n, w.peers[id := q]) && n.inboxes.Keys == w.mail.inboxes.Keys &&
            PeersValid(w.peers[id := q], w.Bound())
  {
    hide MailInv, TakeHead, SocketID, Receive;
    ReceiveKeeps(w.peers[id], package);
    TakeKeeps(w.mail, w.peers, s, fate);
    PeerMovesOn(TakeHead(w.mail, s, fate), w.peers, id, Receive(w.peers[id], package));
  }

  lemma StepKeeps(w: World, a: Action)
    requires Inv(w) && Enabled(w, a)
    ensures Inv(Next(w, a)) && Next(w, a).Bound() == w.Bound()
  {
    hide Next, PeersValid, MailInv, Indexed, TrueAcceptance;
    StepMail(w, a);
    StepAccepts(w, a);
    if a.DoServe? {
      ServeIndex(w, a);
    } else {
      StepIndex(w, a);
    }
  }

  lemma InitialInv(w: World)
    requires Initial(w)
    ensures Inv(w)
  {
    hide SocketID;
  }

  lemma {:induction false} RunInv(ws: seq<World>, acts: seq<Action>, n: nat)
    requires IsRun(ws, acts) && n < |ws|
    ensures Inv(ws[n])
    decreases n
  {
    hide Inv, Next, Enabled, Initial;
    if n == 0 {
      InitialInv(ws[0]);
    } else {
      RunInv(ws, acts, n - 1);
      StepKeeps(ws[n - 1], acts[n - 1]);
    }
  }

  // ---------- theorems about runs

  // Routing: a waiting package with a whole label names, as its source, the peer
  // and port its routing frame decodes to, and as its destination the very inbox
  // it waits in; so neither consistency check of a receive can fail on it.
  lemma QueuedLabelsAgree(ws: seq<World>, acts: seq<Action>, n: nat, s: string, k: nat)
    requires IsRun(ws, acts) && n < |ws|
    requires s in ws[n].mail.inboxes && k < |ws[n].mail.inboxes[s]| && Labelled(ws[n].mail.inboxes[s][k].package)
    ensures var item := ws[n].mail.inboxes[s][k];
            var header := LabelOf(item.package);
            Decoded(item.package.sender) == Some(Address(header.src.peer, header.src.port)) &&
            CheckSource(header, item.package.sender) == Consistent &&
            item.from == header.src.peer &&
            forall q, port :: s == SocketID(q, port) <==> header.dest.peer == q && header.dest.port == port
  {
    hide SocketID, Decoded, Decode, IsRun, IndexInv;
    RunInv(ws, acts, n);
    var m := ws[n].mail;
    var item := m.inboxes[s][k];
    assert m.arrived[s] == ItemsOf(m.taken[s]) + m.inboxes[s];
    assert m.arrived[s][|m.taken[s]| + k] == item;
    assert HonestItem(item, s, ws[n].peers, m.inboxes.Keys);
    var header := LabelOf(item.package);
    SocketIDDecodes(header.src.peer, header.src.port);
    forall q, port
      ensures s == SocketID(q, port) <==> header.dest.peer == q && header.dest.port == port
    {
      SocketIDInjective(header.dest.peer, header.dest.port, q, port);
    }
  }

  lemma {:induction false} PostGrows(m: Mail, from: u16, out: seq<Delivery>, s: string)
    requires m.Valid() && s in m.inboxes
    ensures var n := PostAll(m, from, out);
            n.Valid() && n.inboxes.Keys == m.inboxes.Keys && n.taken == m.taken && m.arrived[s] <= n.arrived[s]
    decreases |out|
  {
    if out != [] {
      PostGrows(Post(m, from, out[0]), from, out[1..], s);
    }
  }

  // A step only ever adds to the history of an inbox.
  lemma StepGrows(w: World, a: Action, s: string)
    requires Enabled(w, a) && s in w.mail.inboxes
    ensures var n := Next(w, a).mail;
            n.Valid() && n.inboxes.Keys == w.Bound() && w.mail.arrived[s] <= n.arrived[s] &&
            w.mail.taken[s] <= n.taken[s]
  {
    hide PostAll, Send, Publish, Serve, Receive, Await, SocketID, Receivable, Subscribes;
    var p := w.peers[a.peer];
    match a
    case DoPush(id, header, body) => PostGrows(w.mail, id, Send(p, w.Bound(), header, body).out, s);
    case DoPublish(id, header, body) => PostGrows(w.mail, id, Publish(p, w.Bound(), header, body).out, s);
    case DoServe(id, port, _, verdict) =>
      ReceivableFrames(Head(w, a).package, a.capacities);
      var r := Serve(p, w.Bound(), Head(w, a).package, verdict);
      PostGrows(TakeHead(w.mail, SocketID(id, port), r.fate), id, r.out, s);
    case DoFetch(_, _, _) =>
    case DoAwait(_, _, _) =>
  }

  // The histories of inbox s are as they were, and possibly longer.
  ghost predicate Grew(was: Mail, now: Mail, s: string) {
    was.Valid() && now.Valid() && s in was.inboxes && s in now.inboxes &&
    was.arrived[s] <= now.arrived[s] && was.taken[s] <= now.taken[s]
  }

  lemma StepGrew(was: Mail, w: World, a: Action, s: string)
    requires Grew(was, w.mail, s) && Enabled(w, a)
    ensures Grew(was, Next(w, a).mail, s)
  {
    hide Next, Enabled;
    StepGrows(w, a, s);
  }

  lemma {:induction false} RunGrows(ws: seq<World>, acts: seq<Action>, m: nat, n: nat, s: string)
    requires IsRun(ws, acts) && m <= n < |ws| && s in ws[m].mail.inboxes
    ensures Grew(ws[m].mail, ws[n].mail, s)
    decreases n
  {
    hide Next, Inv, Enabled, Initial;
    if m < n {
      RunGrows(ws, acts, m, n - 1, s);
      hide Grew;
      StepGrew(ws[m].mail, ws[n - 1], acts[n - 1], s);
    } else {
      RunInv(ws, acts, m);
      InvMail(ws[m]);
    }
  }

  lemma InvMail(w: World)
    requires Inv(w)
    ensures w.mail.Valid() && Conserved(w.mail) && Distinct(w.mail)
  {
  }

  // At every moment, what ever entered an inbox is what was taken
  // from it, in that order and with a fate that is never revised, followed by what
  // still waits; and no two arrivals anywhere are the same send.
  lemma ArrivedIsTakenOrWaits(ws: seq<World>, acts: seq<Action>, m: nat, n: nat, s: string)
    requires IsRun(ws, acts) && m <= n < |ws| && s in ws[m].mail.inboxes
    ensures var now := ws[n].mail;
            now.Valid() && s in now.inboxes && ws[m].mail.Valid() &&
            now.arrived[s] == ItemsOf(now.taken[s]) + now.inboxes[s] &&
            ws[m].mail.arrived[s] <= now.arrived[s] && ws[m].mail.taken[s] <= now.taken[s] &&
            forall i, t, j ::
              t in now.arrived && 0 <= i < |now.arrived[s]| && 0 <= j < |now.arrived[t]| && (s != t || i != j) ==>
              now.arrived[s][i].from != now.arrived[t][j].from || now.arrived[s][i].serial != now.arrived[t][j].serial
  {
    hide IsRun, Inv;
    RunGrows(ws, acts, m, n, s);
    RunInv(ws, acts, n);
    InvMail(ws[n]);
  }

  // IDs: a labelled package carries its sender's serial number modulo 2^32. The serial
  // numbers go from 1 up to what the sender has stamped so far, which is its counter.
  lemma StampIsSerial(ws: seq<World>, acts: seq<Action>, n: nat, s: string, i: nat)
    requires IsRun(ws, acts) && n < |ws| && s in ws[n].mail.arrived && i < |ws[n].mail.arrived[s]|
    ensures var x := ws[n].mail.arrived[s][i];
            (Labelled(x.package) ==> LabelOf(x.package).messageID == x.serial % MOD32) &&
            x.from in ws[n].peers && 1 <= x.serial <= ws[n].peers[x.from].serial &&
            ws[n].peers[x.from].counter == ws[n].peers[x.from].serial % MOD32
  {
    hide IsRun, SocketID, Decode, IndexInv;
    RunInv(ws, acts, n);
    assert HonestItem(ws[n].mail.arrived[s][i], s, ws[n].peers, ws[n].mail.inboxes.Keys);
  }

  // Two labelled packages of one peer less than 2^32 stamps apart never share an ID.
  lemma StampsDiffer(ws: seq<World>, acts: seq<Action>, n: nat, s: string, i: nat, t: string, j: nat)
    requires IsRun(ws, acts) && n < |ws| && s in ws[n].mail.arrived && t in ws[n].mail.arrived
    requires i < |ws[n].mail.arrived[s]| && j < |ws[n].mail.arrived[t]| && (s != t || i != j)
    ensures var x, y := ws[n].mail.arrived[s][i], ws[n].mail.arrived[t][j];
            Labelled(x.package) && Labelled(y.package) && x.from == y.from && -MOD32 < x.serial - y.serial < MOD32 ==>
              LabelOf(x.package).messageID != LabelOf(y.package).messageID
  {
    hide IsRun, SocketID, Decode, IndexInv, Labelled, Honest;
    RunInv(ws, acts, n);
    StampIsSerial(ws, acts, n, s, i);
    StampIsSerial(ws, acts, n, t, j);
    var m := ws[n].mail;
    var x, y := m.arrived[s][i], m.arrived[t][j];
    if x.from == y.from && -MOD32 < x.serial - y.serial < MOD32 {
      assert x.serial != y.serial;
      ModDiffers(x.serial, y.serial);
    }
  }

  lemma ModDiffers(a: nat, b: nat)
    requires a != b && -MOD32 < a - b < MOD32
    ensures a % MOD32 != b % MOD32
  {
  }

  // Reply routing: answering a labelled request with Pass always puts exactly one
  // package on the network. It goes back to the socket the request came from, it
  // leaves from the port the request came in on, and its label is whole, with the
  // replier's own next ID and the request's endpoints exchanged.
  lemma ReplyReaches(ws: seq<World>, acts: seq<Action>, n: nat)
    requires IsRun(ws, acts) && n < |acts| && acts[n].DoServe? && acts[n].verdict.pass
    requires Labelled(Head(ws[n], acts[n]).package)
    requires var i := LabelOf(Head(ws[n], acts[n]).package).dest.iface;
             i in ws[n].peers[acts[n].peer].interfaces && ws[n].peers[acts[n].peer].interfaces[i] == Reply
    ensures var w, v, a := ws[n], ws[n + 1], acts[n];
            var request := Head(w, a);
            var header := LabelOf(request.package);
            var back := SocketID(header.src.peer, header.src.port);
            var reply := Item(
              Package(SocketID(a.peer, a.port),
                      ["", Encode(Contents(v.peers[a.peer].counter, header.kind, header.dest, header.src))] +
                        a.verdict.reply),
              a.peer, v.peers[a.peer].serial);
            back == request.package.sender && back in w.mail.arrived &&
            v.peers[a.peer].serial == w.peers[a.peer].serial + 1 &&
            v.mail.arrived == w.mail.arrived[back := w.mail.arrived[back] + [reply]] &&
            v.answers == w.answers + [Answer(a.peer, request, reply)] &&
            v.peers == w.peers[a.peer := v.peers[a.peer]] &&
            var s := SocketID(a.peer, a.port);
            var left := w.mail.inboxes[s := w.mail.inboxes[s][1..]];
            back in left && v.mail.inboxes == left[back := left[back] + [reply]]
  {
    hide IsRun, SocketID, Encode, Decode, Inv, PublishFrom, Receivable;
    RunStep(ws, acts, n);
    RunInv(ws, acts, n);
    var w, a := ws[n], acts[n];
    var p := w.peers[a.peer];
    var package := Head(w, a).package;
    HeadAddressed(w, a);
    SenderBound(w, a);
    ReceiveKeeps(p, package);
    assert p.id == a.peer && p.Valid() by { InvPeers(w, a.peer); }
    var q := Receive(p, package);
    var header := q.Label();
    assert header.Swapped().From(q.id) == header.Swapped();
    var r := Send(q, w.Bound(), header.Swapped(), a.verdict.reply);
    var buf := Encode(header.Swapped().(messageID := r.peer.counter));
    assert buf[..LABEL_SIZE] == buf;
    assert r.outcome == Sent;
    assert r.out[1..] == [];
    assert PostAll(TakeHead(w.mail, SocketID(a.peer, a.port), Handled(header.dest.iface, true)), a.peer, r.out)
        == Post(TakeHead(w.mail, SocketID(a.peer, a.port), Handled(header.dest.iface, true)), a.peer, r.out[0]);
    InvMail(w);
  }

  // What the reply's label says. It is the replier's next number, whatever the request
  // was. So a reply carries its request's ID exactly when the replier's counter stood
  // one behind that ID when it served the request.
  lemma ReplyCarriesID(ws: seq<World>, acts: seq<Action>, n: nat)
    requires IsRun(ws, acts) && n < |acts| && acts[n].DoServe? && acts[n].verdict.pass
    requires Labelled(Head(ws[n], acts[n]).package)
    requires var i := LabelOf(Head(ws[n], acts[n]).package).dest.iface;
             i in ws[n].peers[acts[n].peer].interfaces && ws[n].peers[acts[n].peer].interfaces[i] == Reply
    ensures var w, v, p := ws[n], ws[n + 1], acts[n].peer;
            |v.answers| == |w.answers| + 1 && p in v.peers &&
            var request, reply := Head(w, acts[n]).package, v.answers[|w.answers|].reply;
            Labelled(reply.package) && reply.serial == w.peers[p].serial + 1 &&
            LabelOf(reply.package).messageID == reply.serial % MOD32 &&
            (LabelOf(reply.package).messageID == LabelOf(request).messageID <==>
               (w.peers[p].counter + 1) % MOD32 == LabelOf(request).messageID)
  {
    hide IsRun, SocketID, Encode, Decode, Inv, Next, Receivable;
    RunStep(ws, acts, n);
    RunInv(ws, acts, n);
    RunInv(ws, acts, n + 1);
    var w, v, p := ws[n], ws[n + 1], acts[n].peer;
    ReplyReaches(ws, acts, n);
    StepConfig(w, acts[n]);
    InvPeers(w, p);
    InvPeers(v, p);
    var header := LabelOf(Head(w, acts[n]).package);
    var mine := Contents(v.peers[p].counter, header.kind, header.dest, header.src);
    LabelRoundTrip(mine);
    assert v.answers[|w.answers|].reply.package.frames[1] == Encode(mine);
    NextCounter(w.peers[p].serial);
  }

  lemma RunStep(ws: seq<World>, acts: seq<Action>, n: nat)
    requires IsRun(ws, acts) && n < |acts|
    ensures n + 1 < |ws| && Enabled(ws[n], acts[n]) && ws[n + 1] == Next(ws[n], acts[n])
  {
  }

  lemma InvPeers(w: World, p: u16)
    requires Inv(w) && p in w.peers
    ensures w.peers[p].id == p && w.peers[p].Valid()
  {
  }
}
