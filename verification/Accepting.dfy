/**
 What the request loop accepts, over runs. It compares the ID in the label buffer, and
 an empty label frame leaves there what was there: after a send, the peer's own stamp.
 */
module Accepting {
  import opened Words
  import opened Naming
  import opened Labels
  import opened Wire
  import opened Protocol
  import opened Network
  import opened Runs
  import opened Requests

  // ---------- label frames are whole or empty

  predicate Whole(n: nat) {
    n == 0 || n == LABEL_SIZE
  }

  predicate WholePackage(p: Package) {
    |p.frames| >= 2 && Whole(|p.frames[1]|)
  }

  ghost predicate WholeMail(m: Mail) {
    forall s, k :: s in m.arrived && 0 <= k < |m.arrived[s]| ==> WholePackage(m.arrived[s][k].package)
  }

  ghost predicate WholeInv(w: World) {
    WholeMail(w.mail) && forall p :: p in w.peers ==> Whole(w.peers[p].labelLen)
  }

  // The label buffer holds the number of the peer's latest stamp.
  predicate OwnStamp(p: PeerState) {
    |p.labelBuf| == LABEL_SIZE && p.Label().messageID == p.counter
  }

  // It holds the peer's own label: the number, and the peer as source.
  predicate OwnLabel(p: PeerState) {
    OwnStamp(p) && p.Label().src.peer == p.id
  }

  lemma SendStamps(p: PeerState, bound: set<string>, header: Contents, body: seq<string>)
    requires p.Valid() && Whole(p.labelLen)
    ensures var r := Send(p, bound, header, body);
            r.peer.Valid() && Whole(r.peer.labelLen) && OwnStamp(r.peer) && OwnLabel(r.peer) &&
            forall k :: 0 <= k < |r.out| ==> WholePackage(r.out[k].package)
  {
    hide SocketID, Encode, Decode;
    var r := Send(p, bound, header, body);
    NextCounter(p.serial);
    LabelRoundTrip(header.From(p.id).(messageID := r.peer.counter));
    if r.out != [] {
      assert r.out[0].package.frames[1] == r.peer.labelBuf[..p.labelLen];
    }
  }

  lemma {:induction false} PublishKeepsStamp(p: PeerState, bound: set<string>, iface: u16, k: nat, body: seq<string>)
    requires p.Valid() && Whole(p.labelLen) && iface in p.subs && k <= |p.subs[iface]|
    ensures var r := PublishFrom(p, bound, iface, k, body);
            r.peer.Valid() && Whole(r.peer.labelLen) && (OwnStamp(p) ==> OwnStamp(r.peer)) &&
            (OwnLabel(p) ==> OwnLabel(r.peer)) &&
            forall j :: 0 <= j < |r.out| ==> WholePackage(r.out[j].package)
    decreases |p.subs[iface]| - k
  {
    hide Send, WholePackage, Decode;
    if k < |p.subs[iface]| {
      var s := Send(p, bound, p.subs[iface][k], body);
      SendStamps(p, bound, p.subs[iface][k], body);
      if s.outcome != Unroutable {
        PublishKeepsStamp(s.peer.(subs := p.subs[iface := p.subs[iface][k := s.header]]), bound, iface, k + 1, s.body);
      }
    }
  }

  // Receiving a package with a label puts that label into the buffer; receiving one
  // without leaves the buffer alone.
  lemma ReceiveWhole(p: PeerState, package: Package)
    requires p.Valid() && WholePackage(package)
    ensures var q := Receive(p, package);
            q.Valid() && Whole(q.labelLen) && q.counter == p.counter && q.id == p.id &&
            q.Label() == if Labelled(package) then LabelOf(package) else p.Label()
  {
    ReceiveKeeps(p, package);
  }

  lemma ServeStamps(p: PeerState, bound: set<string>, package: Package, verdict: Verdict)
    requires p.Valid() && WholePackage(package)
    ensures var r := Serve(p, bound, package, verdict);
            r.peer.Valid() && Whole(r.peer.labelLen) && (OwnStamp(p) && !Labelled(package) ==> OwnStamp(r.peer)) &&
            (OwnLabel(p) && !Labelled(package) ==> OwnLabel(r.peer)) &&
            forall k :: 0 <= k < |r.out| ==> WholePackage(r.out[k].package)
  {
    assert |package.frames| >= 2;
    hide Send, Receive, WholePackage, Decode;
    ReceiveWhole(p, package);
    var q := Receive(p, package);
    SendStamps(q, bound, q.Label().Swapped(), verdict.reply);
  }

  lemma {:induction false} PostAllWhole(m: Mail, from: u16, out: seq<Delivery>)
    requires WholeMail(m) && forall k :: 0 <= k < |out| ==> WholePackage(out[k].package)
    ensures WholeMail(PostAll(m, from, out))
    decreases |out|
  {
    hide WholePackage;
    if out != [] {
      PostAllWhole(Post(m, from, out[0]), from, out[1..]);
    }
  }

  // ---------- each step

  lemma HeadWhole(w: World, a: Action)
    requires Inv(w) && WholeInv(w) && Enabled(w, a) && Takes(a)
    ensures WholePackage(Head(w, a).package)
  {
    hide Inv, WholePackage, SocketID, Receivable;
    HeadArrived(w, a);
  }

  // Label frames stay whole or empty. A push leaves the peer's own stamp in its label
  // buffer, and every other operation keeps it there unless it takes a package with
  // a label.
  lemma StepStamps(w: World, a: Action)
    requires Inv(w) && WholeInv(w) && Enabled(w, a)
    ensures WholeInv(Next(w, a)) && a.peer in Next(w, a).peers
    ensures a.DoPush? || (OwnStamp(w.peers[a.peer]) && (Takes(a) ==> !Labelled(Head(w, a).package))) ==>
              OwnStamp(Next(w, a).peers[a.peer])
    ensures a.DoPush? || (OwnLabel(w.peers[a.peer]) && (Takes(a) ==> !Labelled(Head(w, a).package))) ==>
              OwnLabel(Next(w, a).peers[a.peer])
  {
    hide Send, PublishFrom, Serve, Receive, Decode, PostAll, SocketID, Inv, Receivable, WholePackage, Whole, OwnStamp,
         OwnLabel, Subscribes, Labelled, WholeMail;
    var p, m := w.peers[a.peer], w.mail;
    if Takes(a) {
      HeadWhole(w, a);
    }
    match a
    case DoPush(id, header, body) =>
      SendStamps(p, w.Bound(), header, body);
      PostAllWhole(m, id, Send(p, w.Bound(), header, body).out);
    case DoPublish(id, header, body) =>
      if header.src.iface in p.subs {
        PublishKeepsStamp(p, w.Bound(), header.src.iface, 0, body);
      }
      PostAllWhole(m, id, Publish(p, w.Bound(), header, body).out);
    case DoServe(id, port, _, verdict) =>
      var package := Head(w, a).package;
      ReceivableFrames(package, a.capacities);
      ServeStamps(p, w.Bound(), package, verdict);
      var r := Serve(p, w.Bound(), package, verdict);
      TakeWhole(m, SocketID(id, port), r.fate);
      PostAllWhole(TakeHead(m, SocketID(id, port), r.fate), id, r.out);
    case DoFetch(id, port, _) => TakeStamps(w, a, Returned);
    case DoAwait(id, port, _) =>
      ReceivableFrames(Head(w, a).package, a.capacities);
      TakeStamps(w, a, Await(p, Head(w, a).package).1);
  }

  lemma TakeWhole(m: Mail, s: string, fate: Fate)
    requires WholeMail(m) && s in m.inboxes && m.inboxes[s] != [] && s in m.taken
    ensures WholeMail(TakeHead(m, s, fate))
  {
  }

  lemma TakeStamps(w: World, a: Action, fate: Fate)
    requires WholeInv(w) && Enabled(w, a) && Takes(a) && WholePackage(Head(w, a).package)
    ensures var q := Receive(w.peers[a.peer], Head(w, a).package);
            Whole(q.labelLen) && WholeMail(TakeHead(w.mail, SocketID(a.peer, a.port), fate)) &&
            (OwnStamp(w.peers[a.peer]) && !Labelled(Head(w, a).package) ==> OwnStamp(q)) &&
            (OwnLabel(w.peers[a.peer]) && !Labelled(Head(w, a).package) ==> OwnLabel(q))
  {
    hide Receive, SocketID, Decode, Receivable, WholePackage;
    ReceiveWhole(w.peers[a.peer], Head(w, a).package);
  }

  lemma {:induction false} RunWhole(ws: seq<World>, acts: seq<Action>, n: nat)
    requires IsRun(ws, acts) && n < |ws|
    ensures WholeInv(ws[n]) && Inv(ws[n])
    decreases n
  {
    hide Next, Enabled, Inv, SocketID;
    RunInv(ws, acts, n);
    if n > 0 {
      hide WholeInv, Initial;
      RunWhole(ws, acts, n - 1);
      StepStamps(ws[n - 1], acts[n - 1]);
    }
  }

  // ---------- when the label is loaded

  // The step puts a package into some inbox.
  ghost predicate Sends(w: World, a: Action)
    requires Enabled(w, a)
  {
    Next(w, a).mail.arrived != w.mail.arrived
  }

  lemma PostSends(m: Mail, from: u16, out: seq<Delivery>, s: string)
    requires m.Valid() && forall k :: 0 <= k < |out| ==> out[k].target in m.inboxes
    requires out != [] ==> s == out[0].target
    ensures PostAll(m, from, out).arrived == m.arrived <==> out == []
  {
    if out != [] {
      PostGrows(Post(m, from, out[0]), from, out[1..], s);
    }
  }

  // A send uses the label's frame up exactly when a package leaves.
  lemma SendUnloads(p: PeerState, bound: set<string>, header: Contents, body: seq<string>)
    requires p.Valid()
    ensures var r := Send(p, bound, header, body);
            r.peer.Loaded() <==> r.out == [] && p.Loaded()
  {
    hide SocketID, Encode, Decode;
  }

  lemma {:induction false} PublishUnloads(p: PeerState, bound: set<string>, iface: u16, k: nat, body: seq<string>)
    requires p.Valid() && iface in p.subs && k <= |p.subs[iface]|
    ensures var r := PublishFrom(p, bound, iface, k, body);
            r.peer.Loaded() <==> r.out == [] && p.Loaded()
    decreases |p.subs[iface]| - k
  {
    hide Send, Truthful;
    if k < |p.subs[iface]| {
      var s := Send(p, bound, p.subs[iface][k], body);
      SendUnloads(p, bound, p.subs[iface][k], body);
      SendEmits(p, bound, p.subs[iface][k], body);
      if s.outcome != Unroutable {
        PublishUnloads(s.peer.(subs := p.subs[iface := p.subs[iface][k := s.header]]), bound, iface, k + 1, s.body);
      }
    }
  }

  lemma ServeUnloads(p: PeerState, bound: set<string>, package: Package, verdict: Verdict)
    requires p.Valid() && WholePackage(package)
    ensures var r := Serve(p, bound, package, verdict);
            r.peer.Loaded() <==> r.out == [] && Labelled(package)
  {
    assert |package.frames| >= 2;
    ReceiveLoads(p, package);
    hide Send, Receive, WholePackage, Decode;
    ReceiveWhole(p, package);
    var q := Receive(p, package);
    SendUnloads(q, bound, q.Label().Swapped(), verdict.reply);
  }

  lemma ReceiveLoads(p: PeerState, package: Package)
    requires p.Valid() && WholePackage(package)
    ensures Receive(p, package).Loaded() <==> Labelled(package)
  {
    hide Decode;
    ReceiveKeeps(p, package);
  }

  // What a step leaves of its peer's label frame.
  lemma StepLoads(w: World, a: Action)
    requires Inv(w) && WholeInv(w) && Enabled(w, a)
    ensures a.peer in Next(w, a).peers
    ensures Next(w, a).peers[a.peer].Loaded() <==>
              !Sends(w, a) && if Takes(a) then Labelled(Head(w, a).package) else w.peers[a.peer].Loaded()
  {
    hide Send, PublishFrom, Serve, Receive, Decode, PostAll, SocketID, Inv, Receivable, WholePackage, Whole,
         Subscribes, Labelled, WholeMail, Emitted;
    var p, m, bound := w.peers[a.peer], w.mail, w.Bound();
    if Takes(a) {
      HeadWhole(w, a);
    }
    match a
    case DoPush(id, header, body) =>
      var r := Send(p, bound, header, body);
      SendUnloads(p, bound, header, body);
      SendEmits(p, bound, header, body);
      TargetsBound(p, r.peer, r.out, bound);
      PostSends(m, id, r.out, if r.out == [] then "" else r.out[0].target);
    case DoPublish(id, header, body) =>
      var r := Publish(p, bound, header, body);
      if header.src.iface in p.subs {
        PublishUnloads(p, bound, header.src.iface, 0, body);
        PublishEmits(p, bound, header.src.iface, 0, body);
        TargetsBound(p, r.peer, r.out, bound);
      }
      PostSends(m, id, r.out, if r.out == [] then "" else r.out[0].target);
    case DoServe(id, port, _, verdict) =>
      var package := Head(w, a).package;
      ReceivableFrames(package, a.capacities);
      var r := Serve(p, bound, package, verdict);
      ServeUnloads(p, bound, package, verdict);
      ServeEmits(p, bound, package, verdict);
      TargetsBound(p, r.peer, r.out, bound);
      PostSends(TakeHead(m, SocketID(id, port), r.fate), id, r.out, if r.out == [] then "" else r.out[0].target);
    case DoFetch(id, port, _) => ReceiveLoads(p, Head(w, a).package);
    case DoAwait(id, port, _) =>
      ReceivableFrames(Head(w, a).package, a.capacities);
      ReceiveLoads(p, Head(w, a).package);
  }

  // A step leaves the label frame of every peer as the peer itself left it.
  lemma LoadedNext(w: World, a: Action, p: u16)
    requires Inv(w) && WholeInv(w) && Enabled(w, a) && p in w.peers
    ensures p in Next(w, a).peers
    ensures Next(w, a).peers[p].Loaded() <==>
            if a.peer == p && (Sends(w, a) || Takes(a)) then !Sends(w, a) && Labelled(Head(w, a).package)
            else w.peers[p].Loaded()
  {
    hide Next, Enabled, Inv, SocketID, WholeInv, Sends, Head, Labelled, Takes;
    StepLoads(w, a);
    StepPeers(w, a);
  }

  // Of the steps of peer p before n, the last that sent or took anything took a labelled
  // package and sent nothing; or none of them sent or took anything.
  ghost predicate LastTookLabel(ws: seq<World>, acts: seq<Action>, p: u16, n: nat)
    requires IsRun(ws, acts) && n <= |acts|
  {
    n == 0 ||
    var w, a := ws[n - 1], acts[n - 1];
    if a.peer == p && (Sends(w, a) || Takes(a)) then !Sends(w, a) && Labelled(Head(w, a).package)
    else LastTookLabel(ws, acts, p, n - 1)
  }

  lemma StartsLoaded(w: World, p: u16)
    requires Initial(w) && p in w.peers
    ensures w.peers[p].Loaded()
  {
    hide SocketID;
  }

  // When the next package a peer sends will carry its label, in terms of what the peer
  // has sent and taken so far.
  lemma {:induction false} LoadedExactly(ws: seq<World>, acts: seq<Action>, p: u16, n: nat)
    requires IsRun(ws, acts) && n < |ws| && p in ws[0].peers
    ensures p in ws[n].peers && (ws[n].peers[p].Loaded() <==> LastTookLabel(ws, acts, p, n))
    decreases n
  {
    hide Next, Enabled, Inv, SocketID, Initial, WholeInv, Sends, Head, Labelled, Takes;
    if n == 0 {
      StartsLoaded(ws[0], p);
    } else {
      RunWhole(ws, acts, n - 1);
      RunStep(ws, acts, n - 1);
      LoadedExactly(ws, acts, p, n - 1);
      LoadedNext(ws[n - 1], acts[n - 1], p);
    }
  }

  // ---------- theorems about runs

  // What one turn of the request loop makes of the package it takes.
  ghost function TurnFate(w: World, a: Action): Fate
    requires Enabled(w, a) && a.DoAwait?
  {
    Await(w.peers[a.peer], Head(w, a).package).1
  }

  // In every reachable world: a package with a label is accepted exactly when its ID is
  // the counter, one without exactly when the ID left in the peer's own label buffer is.
  lemma TurnAccepts(ws: seq<World>, acts: seq<Action>, n: nat)
    requires IsRun(ws, acts) && n < |acts| && acts[n].DoAwait?
    ensures var p, package := ws[n].peers[acts[n].peer], Head(ws[n], acts[n]).package;
            WholePackage(package) && Enabled(ws[n], acts[n]) && TurnFate(ws[n], acts[n]) in {Matched, WrongID} &&
            (TurnFate(ws[n], acts[n]) == Matched <==>
               if Labelled(package) then LabelOf(package).messageID == p.counter else OwnStamp(p))
  {
    hide IsRun, SocketID, Receive, Decode, Inv, Next, Receivable, WholePackage, Labelled;
    RunStep(ws, acts, n);
    RunWhole(ws, acts, n);
    HeadWhole(ws[n], acts[n]);
    ReceiveWhole(ws[n].peers[acts[n].peer], Head(ws[n], acts[n]).package);
  }

  // Peer p takes no package with a label in the steps from m up to n.
  ghost predicate NoLabelTaken(ws: seq<World>, acts: seq<Action>, p: u16, m: nat, n: nat)
    requires IsRun(ws, acts) && n <= |acts|
  {
    forall k :: m <= k < n && acts[k].peer == p && Takes(acts[k]) ==> !Labelled(Head(ws[k], acts[k]).package)
  }

  // From a push on, for as long as a peer receives no label, its buffer holds its own
  // stamp, whatever else it sends, publishes, serves or receives.
  lemma {:induction false} OwnStampStays(ws: seq<World>, acts: seq<Action>, m: nat, n: nat)
    requires IsRun(ws, acts) && m < n < |ws| && acts[m].DoPush? && NoLabelTaken(ws, acts, acts[m].peer, m, n)
    ensures acts[m].peer in ws[n].peers && OwnStamp(ws[n].peers[acts[m].peer]) && OwnLabel(ws[n].peers[acts[m].peer])
    decreases n
  {
    hide Next, Enabled, Inv, SocketID, Initial, OwnStamp, OwnLabel, WholeInv;
    if m + 1 < n {
      OwnStampStays(ws, acts, m, n - 1);
    }
    RunStep(ws, acts, n - 1);
    RunWhole(ws, acts, n - 1);
    StepStamps(ws[n - 1], acts[n - 1]);
    StepPeers(ws[n - 1], acts[n - 1]);
  }

  // So in that time a turn of the request loop accepts every package without a label,
  // whoever sent it.
  lemma UnlabelledIsAccepted(ws: seq<World>, acts: seq<Action>, m: nat, n: nat)
    requires IsRun(ws, acts) && m < n < |acts| && acts[m].DoPush? && acts[n].DoAwait? && acts[n].peer == acts[m].peer
    requires NoLabelTaken(ws, acts, acts[m].peer, m, n + 1)
    ensures Enabled(ws[n], acts[n]) && TurnFate(ws[n], acts[n]) == Matched
  {
    hide Next, Inv, SocketID, Initial, OwnStamp, TurnFate, Head, Labelled;
    assert NoLabelTaken(ws, acts, acts[m].peer, m, n);
    OwnStampStays(ws, acts, m, n);
    TurnAccepts(ws, acts, n);
  }

  // From the push at m on, all that its peer does before step n is to take packages
  // in turns of the request loop, each of which it drops.
  ghost predicate Looping(ws: seq<World>, acts: seq<Action>, m: nat, n: nat)
    requires IsRun(ws, acts) && m < n <= |acts|
  {
    acts[m].DoPush? &&
    forall k :: m < k < n && acts[k].peer == acts[m].peer ==> acts[k].DoAwait? && TurnFate(ws[k], acts[k]) == WrongID
  }

  // Nothing was taken since the push.
  ghost predicate FirstTurn(acts: seq<Action>, m: nat, n: nat)
    requires m < n <= |acts|
  {
    forall k :: m < k < n ==> acts[k].peer != acts[m].peer
  }

  // A dropped package leaves an ID in the buffer that is not the counter.
  lemma DroppedStamp(w: World, a: Action)
    requires Enabled(w, a) && a.DoAwait? && TurnFate(w, a) == WrongID
    ensures a.peer in Next(w, a).peers && !OwnStamp(Next(w, a).peers[a.peer])
  {
    hide SocketID, Receive, Decode, Receivable;
    ReceivableFrames(Head(w, a).package, a.capacities);
  }

  lemma {:induction false} LoopStamp(ws: seq<World>, acts: seq<Action>, m: nat, n: nat)
    requires IsRun(ws, acts) && m < n < |ws| && Looping(ws, acts, m, n)
    ensures acts[m].peer in ws[n].peers && (OwnStamp(ws[n].peers[acts[m].peer]) <==> FirstTurn(acts, m, n))
    decreases n
  {
    hide Enabled, Inv, SocketID, Initial, WholeInv, OwnStamp, TurnFate, Next;
    RunStep(ws, acts, n - 1);
    var w, a := ws[n - 1], acts[n - 1];
    if m + 1 == n {
      RunWhole(ws, acts, m);
      StepStamps(w, a);
    } else {
      LoopStamp(ws, acts, m, n - 1);
      if a.peer == acts[m].peer {
        DroppedStamp(w, a);
        assert !FirstTurn(acts, m, n);
      } else {
        StepPeers(w, a);
      }
    }
  }

  // The request loop, exactly: a package with a label ends it if and only if its ID is
  // the counter; one without a label if and only if it is the first package the loop
  // takes.
  lemma RequestLoopAccepts(ws: seq<World>, acts: seq<Action>, m: nat, n: nat)
    requires IsRun(ws, acts) && m < n < |acts| && acts[n].DoAwait? && acts[n].peer == acts[m].peer
    requires Looping(ws, acts, m, n)
    ensures var w, package := ws[n], Head(ws[n], acts[n]).package;
            Enabled(w, acts[n]) &&
            (TurnFate(w, acts[n]) == Matched <==>
               if Labelled(package) then LabelOf(package).messageID == w.peers[acts[m].peer].counter
               else FirstTurn(acts, m, n))
  {
    hide Next, Inv, SocketID, Initial, OwnStamp, TurnFate, Head, Labelled, FirstTurn, Looping;
    LoopStamp(ws, acts, m, n);
    TurnAccepts(ws, acts, n);
  }
}
