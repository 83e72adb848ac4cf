/**
 Request and reply between two peers whom nobody disturbs. A send uses the label's
 frame up and only a receive builds it again, so requests that are sent loaded
 cannot overtake their replies.
 */
module Lockstep {
  import opened Words
  import opened Naming
  import opened Labels
  import opened Protocol
  import opened Network
  import opened Runs
  import opened Requests

  // A request run in which no third peer puts anything into an inbox of a.
  ghost predicate PrivateRun(ws: seq<World>, acts: seq<Action>, d: Dialogue) {
    RequestRun(ws, acts, d) &&
    forall n :: 0 <= n < |acts| && acts[n].peer != d.a && acts[n].peer != d.b ==> Undisturbed(ws[n], ws[n + 1], d)
  }

  ghost predicate Undisturbed(w: World, v: World, d: Dialogue)
    requires d.a in w.peers
  {
    forall port :: port in w.peers[d.a].ports ==>
      var s := SocketID(d.a, port);
      s in w.mail.arrived && s in v.mail.arrived && v.mail.arrived[s] == w.mail.arrived[s]
  }

  // What waits for a at one of its ports.
  ghost predicate Waiting(w: World, d: Dialogue, port: u16, items: seq<Item>) {
    var s := SocketID(d.a, port);
    s in w.mail.inboxes && w.mail.inboxes[s] == items
  }

  ghost predicate NothingWaits(w: World, d: Dialogue)
    requires d.a in w.peers
  {
    forall port :: port in w.peers[d.a].ports ==> Waiting(w, d, port, [])
  }

  ghost predicate OnlyWaits(w: World, d: Dialogue, at: u16, item: Item)
    requires d.a in w.peers
  {
    at in w.peers[d.a].ports && Waiting(w, d, at, [item]) &&
    forall port :: port in w.peers[d.a].ports && port != at ==> Waiting(w, d, port, [])
  }

  // Every request so far was answered, and every answer received.
  ghost predicate Idle(w: World, d: Dialogue) {
    d.a in w.peers && d.b in w.peers &&
    w.peers[d.a].Loaded() && w.peers[d.a].serial == w.peers[d.b].serial && NothingWaits(w, d)
  }

  // The latest request waits for its answer.
  ghost predicate Asked(w: World, d: Dialogue) {
    d.a in w.peers && d.b in w.peers &&
    !w.peers[d.a].Loaded() && w.peers[d.a].serial == w.peers[d.b].serial + 1 && NothingWaits(w, d)
  }

  // The answer to the latest request is the only package waiting for a.
  ghost predicate Answered(w: World, d: Dialogue) {
    d.a in w.peers && d.b in w.peers &&
    !w.peers[d.a].Loaded() && w.peers[d.a].serial == w.peers[d.b].serial &&
    exists at, item :: OnlyWaits(w, d, at, item) && item.from == d.b && item.serial == w.peers[d.a].serial &&
      Labelled(item.package)
  }

  ghost predicate Phased(w: World, d: Dialogue) {
    Idle(w, d) || Asked(w, d) || Answered(w, d)
  }

  // An inbox is what arrived and was not taken.
  lemma InboxRest(w: World, s: string)
    requires Inv(w) && s in w.mail.inboxes
    ensures s in w.mail.arrived && s in w.mail.taken && |w.mail.taken[s]| <= |w.mail.arrived[s]|
    ensures w.mail.inboxes[s] == w.mail.arrived[s][|w.mail.taken[s]|..]
  {
    hide Honest, Distinct, IndexInv, PeersValid;
    assert w.mail.arrived[s] == ItemsOf(w.mail.taken[s]) + w.mail.inboxes[s];
  }

  // If a step of another peer adds `more` to the arrivals at a port of a, it adds
  // just that to what waits there.
  lemma WaitingAfter(w: World, act: Action, d: Dialogue, port: u16, items: seq<Item>, more: seq<Item>)
    requires Inv(w) && Enabled(w, act) && act.peer != d.a && Waiting(w, d, port, items)
    requires var s := SocketID(d.a, port);
             s in w.mail.arrived && s in Next(w, act).mail.arrived &&
             Next(w, act).mail.arrived[s] == w.mail.arrived[s] + more
    ensures Waiting(Next(w, act), d, port, items + more)
  {
    hide SocketID, Next, Inv, Receivable;
    var v, s := Next(w, act), SocketID(d.a, port);
    StepKeeps(w, act);
    StepBy(w, act, s);
    if Takes(act) {
      SocketIDInjective(d.a, port, act.peer, act.port);
    }
    InboxRest(w, s);
    InboxRest(v, s);
  }

  lemma OtherPhase(w: World, act: Action, d: Dialogue)
    requires Inv(w) && Enabled(w, act) && Phased(w, d) && act.peer != d.a && act.peer != d.b
    requires d.a in w.peers && Undisturbed(w, Next(w, act), d)
    ensures Phased(Next(w, act), d)
  {
    hide SocketID, Next, Inv, Waiting;
    var v := Next(w, act);
    forall port, items | port in w.peers[d.a].ports && Waiting(w, d, port, items)
      ensures Waiting(v, d, port, items)
    {
      var s := SocketID(d.a, port);
      assert w.mail.arrived[s] + [] == w.mail.arrived[s];
      WaitingAfter(w, act, d, port, items, []);
      assert items + [] == items;
    }
    StepPeers(w, act);
    if Answered(w, d) {
      var at, item :| OnlyWaits(w, d, at, item) && item.from == d.b && item.serial == w.peers[d.a].serial &&
        Labelled(item.package);
      assert OnlyWaits(v, d, at, item);
    }
  }

  lemma AskPhase(w: World, act: Action, d: Dialogue)
    requires Inv(w) && Enabled(w, act) && InStep(w, d) && Phased(w, d) && d.a != d.b && act.peer == d.a && act.DoPush?
    requires Allowed(w, act, Next(w, act), d)
    ensures Idle(w, d) && Asked(Next(w, act), d)
  {
    hide SocketID, Next, Inv, InStep;
    AskStep(w, act, d);
    AskedLoaded(w, act, d);
    var v := Next(w, act);
    forall port | port in v.peers[d.a].ports
      ensures Waiting(v, d, port, [])
    {
      StepConfig(w, act);
      SocketIDInjective(d.a, port, d.b, d.port);
      assert Waiting(w, d, port, []);
    }
  }

  lemma AskedLoaded(w: World, act: Action, d: Dialogue)
    requires d.a in w.peers && d.b in w.peers && act.peer == d.a && act.DoPush? && Enabled(w, act)
    requires Allowed(w, act, Next(w, act), d)
    ensures w.peers[d.a].Loaded()
  {
  }

  // Whatever a takes is the answer to its latest request.
  lemma TakePhase(w: World, act: Action, d: Dialogue)
    requires Inv(w) && Enabled(w, act) && InStep(w, d) && Phased(w, d) && d.a != d.b && act.peer == d.a
    requires act.DoAwait? || act.DoFetch?
    ensures Answered(w, d) && Idle(Next(w, act), d)
    ensures var item := Head(w, act); item.from == d.b && item.serial == w.peers[d.a].serial && Labelled(item.package)
  {
    hide SocketID, Next, Inv, InStep, Receive, Receivable, Decode;
    var port := act.port;
    assert !Waiting(w, d, port, []);
    assert !NothingWaits(w, d);
    var at, item :| OnlyWaits(w, d, at, item) && item.from == d.b && item.serial == w.peers[d.a].serial &&
      Labelled(item.package);
    assert port == at && Head(w, act) == item;
    InvPeers(w, d.a);
    TakeStep(w, act, d);
    ReceiveKeeps(w.peers[d.a], item.package);
    var v := Next(w, act);
    forall other | other in v.peers[d.a].ports
      ensures Waiting(v, d, other, [])
    {
      SocketIDInjective(d.a, other, d.a, port);
      if other == port {
        assert [item][1..] == [];
      } else {
        assert Waiting(w, d, other, []);
      }
    }
  }

  // b can only answer what was asked.
  lemma ServePhase(ws: seq<World>, acts: seq<Action>, n: nat, d: Dialogue)
    requires RequestRun(ws, acts, d) && n < |acts| && acts[n].peer == d.b && InStep(ws[n], d) && Phased(ws[n], d)
    ensures Answered(ws[n + 1], d)
  {
    hide SocketID, Next, Inv, IsRun, Receivable;
    var reply := ServeAnswers(ws, acts, n, d);
    RunStep(ws, acts, n);
    RunInv(ws, acts, n);
    var w, v, act := ws[n], ws[n + 1], acts[n];
    StillAsked(w, d);
    var at :| at in w.peers[d.a].ports && Head(w, act).package.sender == SocketID(d.a, at);
    var back := SocketID(d.a, at);
    forall port | port in w.peers[d.a].ports
      ensures Waiting(v, d, port, if port == at then [reply] else [])
    {
      SocketIDInjective(d.a, port, d.a, at);
      assert Waiting(w, d, port, []);
      var s := SocketID(d.a, port);
      InvMail(w);
      var more := if port == at then [reply] else [];
      assert v.mail.arrived[s] == w.mail.arrived[s] + more;
      WaitingAfter(w, act, d, port, [], more);
      assert [] + more == more;
    }
    assert OnlyWaits(v, d, at, reply);
  }

  lemma StillAsked(w: World, d: Dialogue)
    requires InStep(w, d) && Phased(w, d) && |w.mail.taken[d.Desk()]| < |w.mail.arrived[d.Desk()]|
    ensures Asked(w, d)
  {
  }

  lemma InitialIdle(w: World, d: Dialogue)
    requires Initial(w) && d.a in w.peers && d.b in w.peers
    ensures Idle(w, d)
  {
    hide SocketID;
  }

  lemma {:induction false} DialoguePhased(ws: seq<World>, acts: seq<Action>, n: nat, d: Dialogue)
    requires PrivateRun(ws, acts, d) && n < |ws|
    ensures Phased(ws[n], d)
    decreases n
  {
    hide Next, Enabled, Initial, InStep, Allowed, Inv, Idle, Asked, Answered, Undisturbed;
    if n == 0 {
      InitialIdle(ws[0], d);
    } else {
      DialoguePhased(ws, acts, n - 1, d);
      DialogueInStep(ws, acts, n - 1, d);
      RunStep(ws, acts, n - 1);
      RunInv(ws, acts, n - 1);
      var w, act := ws[n - 1], acts[n - 1];
      if act.peer == d.b {
        ServePhase(ws, acts, n - 1, d);
      } else if act.peer == d.a {
        AllowedA(w, act, ws[n], d);
        if act.DoPush? {
          AskPhase(w, act, d);
        } else {
          TakePhase(w, act, d);
        }
      } else {
        OtherPhase(w, act, d);
      }
    }
  }

  // A request is only ever sent when every earlier one was answered and every
  // answer received; and the one package a turn of the request loop can find is
  // the answer to the latest request, which it accepts. No reply is ever late.
  lemma RequestsRunInLockstep(ws: seq<World>, acts: seq<Action>, n: nat, d: Dialogue)
    requires PrivateRun(ws, acts, d) && n < |acts| && acts[n].peer == d.a && Enabled(ws[n], acts[n])
    ensures acts[n].DoPush? ==> Idle(ws[n], d)
    ensures acts[n].DoAwait? ==>
              Await(ws[n].peers[d.a], Head(ws[n], acts[n]).package).1 == Matched &&
              Head(ws[n], acts[n]).from == d.b && Head(ws[n], acts[n]).serial == ws[n].peers[d.a].serial
  {
    hide Next, Initial, InStep, Inv, Idle, Asked, Answered, Undisturbed, Receivable, SocketID, Await;
    DialoguePhased(ws, acts, n, d);
    DialogueInStep(ws, acts, n, d);
    RunStep(ws, acts, n);
    RunInv(ws, acts, n);
    if acts[n].DoPush? {
      AskPhase(ws[n], acts[n], d);
    } else if acts[n].DoAwait? {
      TakePhase(ws[n], acts[n], d);
      var i := RequestAcceptsItsAnswer(ws, acts, n, d);
    }
  }
}
