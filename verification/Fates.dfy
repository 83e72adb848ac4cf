/** What becomes of every package, over runs: who takes it, why, and what is sent for it. */
module Fates {
  import opened Words
  import opened Naming
  import opened Labels
  import opened Wire
  import opened Protocol
  import opened Network
  import opened Runs
  import opened Publishing
  import opened Subscriptions
  import opened Accepting

  // ---------- the fate of a package

  // The label by which peer p goes when it takes the package: the package's own, or the
  // one that is left in the peer's buffer.
  function LabelFor(p: PeerState, package: Package): Contents
    requires |p.labelBuf| == LABEL_SIZE
  {
    if Labelled(package) then LabelOf(package) else p.Label()
  }

  // The fate is the right one for the operation that took the package: returned to the
  // user, accepted by a request or dropped for its ID, or handed to the interface the
  // label names, if there is one.
  ghost predicate TrueFate(p: PeerState, a: Action, package: Package, fate: Fate)
    requires |p.labelBuf| == LABEL_SIZE
  {
    var label0 := LabelFor(p, package);
    match a
    case DoFetch(_, _, _) => fate == Returned
    case DoAwait(_, _, _) => fate == if label0.messageID == p.counter then Matched else WrongID
    case DoServe(_, _, _, verdict) =>
      fate == if label0.dest.iface in p.interfaces then Handled(label0.dest.iface, verdict.pass) else UnknownInterface
    case DoPush(_, _, _) => false
    case DoPublish(_, _, _) => false
  }

  // Step n of a run takes the head of its port's inbox and records its true fate; it
  // takes nothing anywhere else, and a push or a publish takes nothing at all.
  lemma StepFate(ws: seq<World>, acts: seq<Action>, n: nat) returns (fate: Fate)
    requires IsRun(ws, acts) && n < |acts|
    ensures !Takes(acts[n]) ==> ws[n + 1].mail.taken == ws[n].mail.taken
    ensures Enabled(ws[n], acts[n])
    ensures Takes(acts[n]) ==>
              var w, a := ws[n], acts[n];
              var s := SocketID(a.peer, a.port);
              TrueFate(w.peers[a.peer], a, Head(w, a).package, fate) &&
              ws[n + 1].mail.taken == w.mail.taken[s := w.mail.taken[s] + [Taken(Head(w, a), fate)]]
  {
    hide IsRun, SocketID, Receive, Decode, Inv, Next, Receivable, WholePackage, Labelled;
    RunStep(ws, acts, n);
    RunWhole(ws, acts, n);
    fate := StepTakes(ws[n], acts[n]);
    if Takes(acts[n]) {
      HeadWhole(ws[n], acts[n]);
      ReceiveWhole(ws[n].peers[acts[n].peer], Head(ws[n], acts[n]).package);
    }
  }

  // Step m took the k-th package that was ever taken from inbox s, and gave it its fate.
  ghost predicate TakenBy(ws: seq<World>, acts: seq<Action>, m: nat, s: string, k: nat, t: Taken)
    requires IsRun(ws, acts) && m < |acts|
  {
    var w, a := ws[m], acts[m];
    Takes(a) && SocketID(a.peer, a.port) == s && |w.mail.taken[s]| == k && t.item == Head(w, a) &&
    TrueFate(w.peers[a.peer], a, t.item.package, t.fate)
  }

  ghost predicate Explained(ws: seq<World>, acts: seq<Action>, n: nat, s: string, k: nat, t: Taken)
    requires IsRun(ws, acts) && n <= |acts|
  {
    exists m: nat :: m < n && TakenBy(ws, acts, m, s, k, t)
  }

  lemma {:induction false} TakenOnce(ws: seq<World>, acts: seq<Action>, n: nat, s: string, k: nat) returns (m: nat)
    requires IsRun(ws, acts) && n < |ws| && s in ws[n].mail.taken && k < |ws[n].mail.taken[s]|
    ensures m < n && TakenBy(ws, acts, m, s, k, ws[n].mail.taken[s][k])
    decreases n
  {
    hide SocketID, Next, TrueFate, Inv;
    if n > 0 {
      hide Enabled, Initial;
      var fate := StepFate(ws, acts, n - 1);
      RunInv(ws, acts, n - 1);
      SameTaken(ws, acts, n - 1, s);
      if k < |ws[n - 1].mail.taken[s]| {
        m := TakenOnce(ws, acts, n - 1, s, k);
      } else {
        m := n - 1;
      }
    }
  }

  // No step makes or removes an inbox.
  lemma SameTaken(ws: seq<World>, acts: seq<Action>, n: nat, s: string)
    requires IsRun(ws, acts) && n < |acts|
    ensures s in ws[n].mail.taken <==> s in ws[n + 1].mail.taken
  {
    hide Inv, Next, IsRun, Enabled;
    RunStep(ws, acts, n);
    RunInv(ws, acts, n);
    StepKeeps(ws[n], acts[n]);
    InvMail(ws[n]);
    InvMail(ws[n + 1]);
  }

  // Conservation. At every moment, what ever entered an inbox is what was taken from it,
  // in that order, followed by what still waits; both histories only grow, and no two
  // arrivals anywhere are the same send. Every package that was taken was taken by one
  // step of the inbox's owner, as its head, and its fate, which is never revised, is what
  // that step made of it.
  lemma Conservation(ws: seq<World>, acts: seq<Action>, m: nat, n: nat, s: string)
    requires IsRun(ws, acts) && m <= n < |ws| && s in ws[m].mail.inboxes
    ensures var now := ws[n].mail;
            now.Valid() && s in now.inboxes && ws[m].mail.Valid() &&
            now.arrived[s] == ItemsOf(now.taken[s]) + now.inboxes[s] &&
            ws[m].mail.arrived[s] <= now.arrived[s] && ws[m].mail.taken[s] <= now.taken[s] &&
            (forall i, t, j ::
               t in now.arrived && 0 <= i < |now.arrived[s]| && 0 <= j < |now.arrived[t]| && (s != t || i != j) ==>
               now.arrived[s][i].from != now.arrived[t][j].from ||
               now.arrived[s][i].serial != now.arrived[t][j].serial) &&
            forall k: nat :: k < |now.taken[s]| ==> Explained(ws, acts, n, s, k, now.taken[s][k])
  {
    hide Initial, Enabled, Next, Inv, TakenBy, SocketID;
    ArrivedIsTakenOrWaits(ws, acts, m, n, s);
    forall k: nat | k < |ws[n].mail.taken[s]|
      ensures Explained(ws, acts, n, s, k, ws[n].mail.taken[s][k])
    {
      var step := TakenOnce(ws, acts, n, s, k);
    }
  }

  // ---------- what serving sends

  // What a serving step does to the mail, in terms of what it sends.
  lemma ServeMail(w: World, a: Action) returns (reply: Item)
    requires Inv(w) && Enabled(w, a) && a.DoServe?
    ensures |Head(w, a).package.frames| >= 2
    ensures var out := Serve(w.peers[a.peer], w.Bound(), Head(w, a).package, a.verdict).out;
            (out == [] ==> Next(w, a).mail.arrived == w.mail.arrived && Next(w, a).answers == w.answers) &&
            (|out| == 1 && out[0].target in w.Bound() ==>
               reply == Item(out[0].package, a.peer, out[0].serial) && out[0].target in w.mail.arrived &&
               Next(w, a).mail.arrived ==
                 w.mail.arrived[out[0].target := w.mail.arrived[out[0].target] + [reply]] &&
               Next(w, a).answers == w.answers + [Answer(a.peer, Head(w, a), reply)])
  {
    hide SocketID, Receive, Decode, Inv, Receivable, Serve, Subscribes;
    ReceivableFrames(Head(w, a).package, a.capacities);
    ReceiveKeeps(w.peers[a.peer], Head(w, a).package);
    InvMail(w);
    var r := Serve(w.peers[a.peer], w.Bound(), Head(w, a).package, a.verdict);
    reply := Head(w, a);
    if |r.out| == 1 {
      reply := Item(r.out[0].package, a.peer, r.out[0].serial);
      assert r.out[1..] == [];
      assert forall m: Mail :: PostAll(m, a.peer, r.out) == Post(m, a.peer, r.out[0]);
    }
  }

  // Serving a package puts something on the network if and only if the label it goes by
  // names a Reply interface, the handler passes, the port the label was sent to is there
  // and its source is bound; then it is one reply, to that source, and it is recorded as
  // the answer to that package. With a label of its own the last two always hold.
  lemma ServingSends(ws: seq<World>, acts: seq<Action>, n: nat) returns (reply: Item)
    requires IsRun(ws, acts) && n < |acts| && acts[n].DoServe?
    ensures Enabled(ws[n], acts[n])
    ensures var w, v, a := ws[n], ws[n + 1], acts[n];
            var p, request := w.peers[a.peer], Head(w, a);
            var label0 := LabelFor(p, request.package);
            var i, back := label0.dest.iface, SocketID(label0.src.peer, label0.src.port);
            var answers := i in p.interfaces && p.interfaces[i] == Reply && a.verdict.pass &&
                           label0.dest.port in p.ports && back in w.Bound();
            (v.mail.arrived != w.mail.arrived <==> answers) &&
            (!answers ==> v.answers == w.answers) &&
            (answers ==>
               back in w.mail.arrived && v.mail.arrived == w.mail.arrived[back := w.mail.arrived[back] + [reply]] &&
               v.answers == w.answers + [Answer(a.peer, request, reply)] &&
               reply.from == a.peer && reply.serial == p.serial + 1 &&
               reply.package.sender == SocketID(a.peer, label0.dest.port) &&
               |reply.package.frames| >= 2 && reply.package.frames[2..] == a.verdict.reply)
  {
    hide IsRun, SocketID, Receive, Decode, Inv, Receivable, WholePackage, Labelled, Serve, Next, Enabled, Head;
    RunStep(ws, acts, n);
    RunWhole(ws, acts, n);
    var w, a := ws[n], acts[n];
    reply := ServeMail(w, a);
    assert a.peer in w.peers by { EnabledPeer(w, a); }
    var p, package := w.peers[a.peer], Head(w, a).package;
    HeadWhole(w, a);
    InvPeers(w, a.peer);
    ReceiveWhole(p, package);
    ReceiveKeeps(p, package);
    ServeMeaning(p, w.Bound(), package, a.verdict);
    var v, out := ws[n + 1], Serve(p, w.Bound(), package, a.verdict).out;
    if out != [] {
      assert |v.mail.arrived[out[0].target]| > |w.mail.arrived[out[0].target]|;
    }
  }

  lemma EnabledPeer(w: World, a: Action)
    requires Enabled(w, a)
    ensures a.peer in w.peers && w.mail.Valid()
    ensures Takes(a) ==> SocketID(a.peer, a.port) in w.mail.inboxes && w.mail.inboxes[SocketID(a.peer, a.port)] != []
  {
    hide SocketID, Receivable;
  }

  // No other operation answers anything.
  lemma OnlyServingAnswers(ws: seq<World>, acts: seq<Action>, n: nat)
    requires IsRun(ws, acts) && n < |acts| && !acts[n].DoServe?
    ensures ws[n + 1].answers == ws[n].answers
    ensures acts[n].DoFetch? || acts[n].DoAwait? ==> ws[n + 1].mail.arrived == ws[n].mail.arrived
  {
    hide SocketID, Send, Publish, Receive, PostAll, Enabled, Inv, Initial;
    RunStep(ws, acts, n);
  }

  // ---------- what the checks of a receive notice

  // While its own label is in its buffer, a peer that takes a package without a label
  // from another peer notices: the check never finds the source consistent.
  lemma StrayIsNoticed(ws: seq<World>, acts: seq<Action>, m: nat, n: nat)
    requires IsRun(ws, acts) && m < n < |acts| && acts[m].DoPush? && acts[n].peer == acts[m].peer && Takes(acts[n])
    requires NoLabelTaken(ws, acts, acts[m].peer, m, n + 1) && Head(ws[n], acts[n]).from != acts[n].peer
    ensures Enabled(ws[n], acts[n]) && |Head(ws[n], acts[n]).package.frames| >= 2
    ensures var p, package := ws[n].peers[acts[n].peer], Head(ws[n], acts[n]).package;
            Decoded(package.sender).Some? &&
            CheckSource(Receive(p, package).Label(), package.sender) in {BadPort, BadPeer}
  {
    hide IsRun, SocketID, Receive, Decode, Decoded, Inv, Next, Receivable, Labelled;
    RunStep(ws, acts, n);
    RunWhole(ws, acts, n);
    assert NoLabelTaken(ws, acts, acts[m].peer, m, n);
    OwnStampStays(ws, acts, m, n);
    var w, a := ws[n], acts[n];
    var p, item := w.peers[a.peer], Head(w, a);
    HeadWhole(w, a);
    ReceiveWhole(p, item.package);
    InvPeers(w, a.peer);
    HeadArrived(w, a);
    var port :| port in w.peers[item.from].ports && item.package.sender == SocketID(item.from, port);
    CheckMeaning(p.Label(), item.from, port);
    SocketIDInjective(p.Label().src.peer, p.Label().src.port, item.from, port);
  }
}
