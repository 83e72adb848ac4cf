/**
 Request and reply over runs. A reply carries the replier's own counter, not the
 request's ID: that the two agree is a fact about whole runs.
 */
module Requests {
  import opened Words
  import opened Naming
  import opened Labels
  import opened Protocol
  import opened Network
  import opened Runs
  import opened Publishing

  // Peer a sends requests to one port of peer b.
  datatype Dialogue = Dialogue(a: u16, b: u16, port: u16) {
    function Desk(): string { SocketID(b, port) }
  }

  // a sends its requests loaded, to a reply interface of b, and otherwise only
  // receives; b only answers what arrives at the port, each with one Pass reply;
  // nobody else sends to that port. Other peers may do anything else, and may
  // send to a.
  ghost predicate Allowed(w: World, act: Action, v: World, d: Dialogue)
    requires d.a in w.peers && d.b in w.peers
  {
    if act.peer == d.a then
      act.DoAwait? || act.DoFetch? ||
      (act.DoPush? && act.header.dest.peer == d.b && act.header.dest.port == d.port &&
       act.header.src.port in w.peers[d.a].ports && w.peers[d.a].Loaded() &&
       Answers(w.peers[d.b], act.header.dest.iface))
    else if act.peer == d.b then act.DoServe? && act.port == d.port && act.verdict.pass
    else
      d.Desk() in v.mail.arrived && d.Desk() in w.mail.arrived &&
      v.mail.arrived[d.Desk()] == w.mail.arrived[d.Desk()]
  }

  predicate Answers(p: PeerState, i: u16) {
    i in p.interfaces && p.interfaces[i] == Reply
  }

  ghost predicate RequestRun(ws: seq<World>, acts: seq<Action>, d: Dialogue) {
    IsRun(ws, acts) && d.a != d.b && d.a in ws[0].peers && d.b in ws[0].peers && d.port in ws[0].peers[d.b].ports &&
    forall n :: 0 <= n < |acts| ==> d.a in ws[n].peers && d.b in ws[n].peers && Allowed(ws[n], acts[n], ws[n + 1], d)
  }

  // ---------- what every world of such a run satisfies

  // The k-th arrival at the desk is a's k-th request, whole and answerable.
  ghost predicate AtDesk(w: World, d: Dialogue)
    requires d.a in w.peers && d.b in w.peers
  {
    d.Desk() in w.mail.arrived && |w.mail.arrived[d.Desk()]| == w.peers[d.a].serial &&
    forall k :: 0 <= k < |w.mail.arrived[d.Desk()]| ==> IsRequest(w.mail.arrived[d.Desk()][k], k + 1, w.peers[d.b], d)
  }

  ghost predicate IsRequest(item: Item, number: nat, b: PeerState, d: Dialogue) {
    item.from == d.a && item.serial == number && Labelled(item.package) && Answers(b, LabelOf(item.package).dest.iface)
  }

  // The answers of one peer, in the order it gave them.
  function By(answers: seq<Answer>, who: u16): (mine: seq<Answer>)
    ensures forall k :: 0 <= k < |mine| ==> mine[k].who == who && mine[k] in answers
  {
    if answers == [] then []
    else
      var last := answers[|answers| - 1];
      By(answers[..|answers| - 1], who) + if last.who == who then [last] else []
  }

  lemma {:induction false} ByOthers(was: seq<Answer>, now: seq<Answer>, who: u16)
    requires was <= now && forall i :: |was| <= i < |now| ==> now[i].who != who
    ensures By(now, who) == By(was, who)
    decreases |now|
  {
    if |was| < |now| {
      ByOthers(was, now[..|now| - 1], who);
    } else {
      assert was == now;
    }
  }

  lemma ByMore(was: seq<Answer>, ans: Answer)
    ensures By(was + [ans], ans.who) == By(was, ans.who) + [ans]
  {
    assert (was + [ans])[..|was|] == was;
  }

  // A reply of b was sent for the request with its number, and carries that number.
  ghost predicate Paired(ans: Answer, w: World, d: Dialogue)
    requires d.Desk() in w.mail.arrived
  {
    ans.who == d.b ==>
      ans.reply.from == d.b && 1 <= ans.reply.serial <= |w.mail.arrived[d.Desk()]| &&
      Labelled(ans.reply.package) && LabelOf(ans.reply.package).messageID == ans.reply.serial % MOD32 &&
      ans.request == w.mail.arrived[d.Desk()][ans.reply.serial - 1]
  }

  // Whatever b sent is one of those replies.
  ghost predicate IsReply(item: Item, answers: seq<Answer>, d: Dialogue) {
    exists i :: 0 <= i < |answers| && answers[i].who == d.b && answers[i].reply == item
  }

  // b's k-th reply has number k.
  ghost predicate Numbered(answers: seq<Answer>, b: u16, serial: nat) {
    |By(answers, b)| == serial && forall k :: 0 <= k < serial ==> By(answers, b)[k].reply.serial == k + 1
  }

  ghost predicate InStep(w: World, d: Dialogue) {
    d.a in w.peers && d.b in w.peers && d.port in w.peers[d.b].ports && AtDesk(w, d) &&
    Numbered(w.answers, d.b, w.peers[d.b].serial) &&
    d.Desk() in w.mail.taken && w.peers[d.b].serial == |w.mail.taken[d.Desk()]| &&
    (forall i :: 0 <= i < |w.answers| ==> Paired(w.answers[i], w, d)) &&
    (forall s, k :: s in w.mail.arrived && 0 <= k < |w.mail.arrived[s]| && w.mail.arrived[s][k].from == d.b ==>
       IsReply(w.mail.arrived[s][k], w.answers, d))
  }

  // ---------- a sends a request

  lemma AskStep(w: World, act: Action, d: Dialogue)
    requires Inv(w) && Enabled(w, act) && InStep(w, d) && d.a != d.b && act.peer == d.a && act.DoPush?
    requires Allowed(w, act, Next(w, act), d)
    ensures InStep(Next(w, act), d)
    ensures var v := Next(w, act);
            v.peers == w.peers[d.a := v.peers[d.a]] && v.peers[d.a].serial == w.peers[d.a].serial + 1 &&
            !v.peers[d.a].Loaded() &&
            v.mail.inboxes == w.mail.inboxes[d.Desk() := w.mail.inboxes[d.Desk()] +
                                             [v.mail.arrived[d.Desk()][w.peers[d.a].serial]]]
  {
    hide SocketID, Decode, Send, Inv;
    var p := w.peers[d.a];
    SendMeaning(p, w.Bound(), act.header, act.body);
    assert d.Desk() in w.Bound() by { DeskBound(w, d); }
    var r := Send(p, w.Bound(), act.header, act.body);
    assert r.out[1..] == [] && r.out == [r.out[0]];
    assert PostAll(w.mail, d.a, r.out) == Post(w.mail, d.a, r.out[0]);
    var v := Next(w, act);
    assert p.id == d.a by { InvPeers(w, d.a); }
    SendEmits(p, w.Bound(), act.header, act.body);
    forall i | 0 <= i < |v.answers|
      ensures Paired(v.answers[i], v, d)
    {
      assert Paired(w.answers[i], w, d);
    }
    forall s, k | s in v.mail.arrived && 0 <= k < |v.mail.arrived[s]| && v.mail.arrived[s][k].from == d.b
      ensures IsReply(v.mail.arrived[s][k], v.answers, d)
    {
      assert IsReply(w.mail.arrived[s][k], w.answers, d);
    }
  }

  lemma DeskBound(w: World, d: Dialogue)
    requires Inv(w) && d.b in w.peers && d.port in w.peers[d.b].ports
    ensures d.Desk() in w.Bound()
  {
  }

  // ---------- a receives

  lemma TakeStep(w: World, act: Action, d: Dialogue)
    requires Inv(w) && Enabled(w, act) && InStep(w, d) && d.a != d.b && act.peer == d.a &&
             (act.DoAwait? || act.DoFetch?)
    ensures InStep(Next(w, act), d)
    ensures var v := Next(w, act);
            v.peers == w.peers[d.a := Receive(w.peers[d.a], Head(w, act).package)] &&
            v.peers[d.a].serial == w.peers[d.a].serial && v.mail.arrived == w.mail.arrived &&
            v.mail.inboxes == w.mail.inboxes[SocketID(d.a, act.port) := w.mail.inboxes[SocketID(d.a, act.port)][1..]]
  {
    hide SocketID, Decode, Inv, Receivable;
    var p := w.peers[d.a];
    ReceivableFrames(Head(w, act).package, act.capacities);
    ReceiveKeeps(p, Head(w, act).package);
    SocketIDInjective(d.a, act.port, d.b, d.port);
    var v := Next(w, act);
    forall i | 0 <= i < |v.answers|
      ensures Paired(v.answers[i], v, d)
    {
      assert Paired(w.answers[i], w, d);
    }
    forall s, k | s in v.mail.arrived && 0 <= k < |v.mail.arrived[s]| && v.mail.arrived[s][k].from == d.b
      ensures IsReply(v.mail.arrived[s][k], v.answers, d)
    {
      assert IsReply(w.mail.arrived[s][k], w.answers, d);
    }
  }

  // ---------- somebody else acts

  lemma {:induction false} PostAllAdds(m: Mail, from: u16, out: seq<Delivery>, s: string)
    requires m.Valid() && s in m.inboxes
    ensures var n := PostAll(m, from, out);
            s in n.arrived && m.arrived[s] <= n.arrived[s] && n.taken == m.taken &&
            forall k :: |m.arrived[s]| <= k < |n.arrived[s]| ==> n.arrived[s][k].from == from
    decreases |out|
  {
    PostGrows(m, from, out, s);
    if out != [] {
      var next := Post(m, from, out[0]);
      PostAllAdds(next, from, out[1..], s);
      PostGrows(m, from, [out[0]], s);
      assert [out[0]][1..] == [];
      assert PostAll(m, from, [out[0]]) == next;
    }
  }

  // A step of peer c adds only packages and answers of c, and takes only from c.
  lemma StepBy(w: World, act: Action, s: string)
    requires Enabled(w, act) && s in w.Bound()
    ensures var v := Next(w, act);
            s in v.mail.arrived && s in v.mail.taken && w.mail.arrived[s] <= v.mail.arrived[s] &&
            (forall k :: |w.mail.arrived[s]| <= k < |v.mail.arrived[s]| ==> v.mail.arrived[s][k].from == act.peer) &&
            (v.mail.taken[s] == w.mail.taken[s] || (Takes(act) && s == SocketID(act.peer, act.port))) &&
            w.answers <= v.answers && (forall i :: |w.answers| <= i < |v.answers| ==> v.answers[i].who == act.peer) &&
            (forall q :: q in w.peers && q != act.peer ==> q in v.peers && v.peers[q] == w.peers[q])
  {
    hide Send, Receive, Serve, Publish, Await, Decode, PostAll, SocketID, Receivable, Subscribes;
    var p := w.peers[act.peer];
    match act
    case DoPush(id, header, body) => PostAllAdds(w.mail, id, Send(p, w.Bound(), header, body).out, s);
    case DoPublish(id, header, body) => PostAllAdds(w.mail, id, Publish(p, w.Bound(), header, body).out, s);
    case DoServe(id, port, _, verdict) =>
      ReceivableFrames(Head(w, act).package, act.capacities);
      var r := Serve(p, w.Bound(), Head(w, act).package, verdict);
      PostAllAdds(TakeHead(w.mail, SocketID(id, port), r.fate), id, r.out, s);
    case DoFetch(_, _, _) =>
    case DoAwait(_, _, _) =>
  }

  lemma StepPeers(w: World, act: Action)
    requires Enabled(w, act)
    ensures forall q :: q in w.peers && q != act.peer ==> q in Next(w, act).peers && Next(w, act).peers[q] == w.peers[q]
  {
    hide Send, Receive, Serve, Publish, Await, Decode, PostAll, SocketID, Receivable, Subscribes;
    if Takes(act) {
      ReceivableFrames(Head(w, act).package, act.capacities);
    }
  }

  lemma OtherStep(w: World, act: Action, d: Dialogue)
    requires Inv(w) && Enabled(w, act) && InStep(w, d) && act.peer != d.a && act.peer != d.b
    requires Allowed(w, act, Next(w, act), d)
    ensures InStep(Next(w, act), d)
  {
    hide SocketID, Decode, Inv, Next, Receivable;
    var v := Next(w, act);
    StepBy(w, act, d.Desk());
    if Takes(act) {
      SocketIDInjective(act.peer, act.port, d.b, d.port);
    }
    ByOthers(w.answers, v.answers, d.b);
    forall i | 0 <= i < |v.answers|
      ensures Paired(v.answers[i], v, d)
    {
      if i < |w.answers| {
        assert v.answers[i] == w.answers[i];
        assert Paired(w.answers[i], w, d);
      }
    }
    forall s, k | s in v.mail.arrived && 0 <= k < |v.mail.arrived[s]| && v.mail.arrived[s][k].from == d.b
      ensures IsReply(v.mail.arrived[s][k], v.answers, d)
    {
      SameSockets(w, act, s);
      StepBy(w, act, s);
      assert v.mail.arrived[s][k] == w.mail.arrived[s][k];
      StillReply(w.mail.arrived[s][k], w.answers, v.answers, d);
    }
  }

  lemma SameSockets(w: World, act: Action, s: string)
    requires Inv(w) && Enabled(w, act) && s in Next(w, act).mail.arrived
    ensures s in w.Bound()
  {
    hide Next, Inv;
    StepKeeps(w, act);
    InvMail(Next(w, act));
  }

  lemma StillReply(item: Item, was: seq<Answer>, now: seq<Answer>, d: Dialogue)
    requires IsReply(item, was, d) && was <= now
    ensures IsReply(item, now, d)
  {
    var i :| 0 <= i < |was| && was[i].who == d.b && was[i].reply == item;
    assert now[i] == was[i];
  }

  // ---------- b answers

  // The reply b sends for the request it serves.
  ghost predicate AnswersHead(w: World, act: Action, v: World, d: Dialogue, request: Item, reply: Item) {
    d.a in w.peers && d.b in w.peers && d.Desk() in w.mail.arrived && d.Desk() in w.mail.taken &&
    d.Desk() in v.mail.taken &&
    |v.mail.taken[d.Desk()]| == |w.mail.taken[d.Desk()]| + 1 <= |w.mail.arrived[d.Desk()]| &&
    request == w.mail.arrived[d.Desk()][|w.mail.taken[d.Desk()]|] &&
    reply.from == d.b && reply.serial == w.peers[d.b].serial + 1 &&
    Labelled(reply.package) && LabelOf(reply.package).messageID == reply.serial % MOD32 &&
    request.package.sender in w.mail.arrived && request.package.sender != d.Desk() &&
    v.mail.arrived == w.mail.arrived[request.package.sender := w.mail.arrived[request.package.sender] + [reply]] &&
    v.answers == w.answers + [Answer(d.b, request, reply)] &&
    d.b in v.peers && v.peers == w.peers[d.b := v.peers[d.b]] && v.peers[d.b].serial == w.peers[d.b].serial + 1 &&
    w.peers[d.b].SameConfig(v.peers[d.b])
  }

  // Serving a request puts the reply with the same number into an inbox of a.
  lemma ServeAnswers(ws: seq<World>, acts: seq<Action>, n: nat, d: Dialogue) returns (reply: Item)
    requires RequestRun(ws, acts, d) && n < |acts| && acts[n].peer == d.b && InStep(ws[n], d)
    ensures Enabled(ws[n], acts[n]) && acts[n].DoServe? && acts[n].port == d.port
    ensures AnswersHead(ws[n], acts[n], ws[n + 1], d, Head(ws[n], acts[n]), reply)
    ensures exists port :: port in ws[n].peers[d.a].ports && Head(ws[n], acts[n]).package.sender == SocketID(d.a, port)
  {
    hide SocketID, Decode, Encode, Inv, IsRun, Next, Receivable, Truthful;
    RunStep(ws, acts, n);
    RunInv(ws, acts, n);
    var w, v, act := ws[n], ws[n + 1], acts[n];
    HeadArrived(w, act);
    var request := Head(w, act);
    assert IsRequest(w.mail.arrived[d.Desk()][|w.mail.taken[d.Desk()]|], w.peers[d.b].serial + 1, w.peers[d.b], d);
    HeadAddressed(w, act);
    ReplyReaches(ws, acts, n);
    ReplyCarriesID(ws, acts, n);
    var header := LabelOf(request.package);
    SocketIDInjective(d.a, header.src.port, d.b, d.port);
    ServedOne(w, act);
    StepConfig(w, act);
    SenderPort(w, act);
    reply := v.answers[|w.answers|].reply;
  }

  lemma SenderPort(w: World, act: Action)
    requires Inv(w) && Enabled(w, act) && Takes(act)
    ensures Head(w, act).from in w.peers
    ensures exists port ::
              port in w.peers[Head(w, act).from].ports &&
              Head(w, act).package.sender == SocketID(Head(w, act).from, port)
  {
    hide SocketID, Inv, Receivable, Decode;
    HeadArrived(w, act);
  }

  lemma AnswerStep(w: World, act: Action, v: World, d: Dialogue, request: Item, reply: Item)
    requires InStep(w, d) && AnswersHead(w, act, v, d, request, reply)
    ensures InStep(v, d)
  {
    hide SocketID, Labelled, LabelOf;
    assert AtDesk(v, d) by {
      assert v.mail.arrived[d.Desk()] == w.mail.arrived[d.Desk()];
      forall k | 0 <= k < |w.mail.arrived[d.Desk()]|
        ensures IsRequest(v.mail.arrived[d.Desk()][k], k + 1, v.peers[d.b], d)
      {
        assert IsRequest(w.mail.arrived[d.Desk()][k], k + 1, w.peers[d.b], d);
      }
    }
    assert Paired(Answer(d.b, request, reply), v, d);
    ByMore(w.answers, Answer(d.b, request, reply));
    forall i | 0 <= i < |v.answers|
      ensures Paired(v.answers[i], v, d)
    {
      if i < |w.answers| {
        assert v.answers[i] == w.answers[i];
        assert Paired(w.answers[i], w, d);
      }
    }
    forall s, k | s in v.mail.arrived && 0 <= k < |v.mail.arrived[s]| && v.mail.arrived[s][k].from == d.b
      ensures IsReply(v.mail.arrived[s][k], v.answers, d)
    {
      if k < |w.mail.arrived[s]| {
        assert IsReply(w.mail.arrived[s][k], w.answers, d);
        StillReply(w.mail.arrived[s][k], w.answers, v.answers, d);
      } else {
        assert v.answers[|w.answers|].reply == reply == v.mail.arrived[s][k];
      }
    }
  }

  lemma ServedOne(w: World, act: Action)
    requires Enabled(w, act) && act.DoServe?
    ensures var s := SocketID(act.peer, act.port);
            s in Next(w, act).mail.taken && |Next(w, act).mail.taken[s]| == |w.mail.taken[s]| + 1 &&
            Next(w, act).peers == w.peers[act.peer := Next(w, act).peers[act.peer]]
  {
    hide Send, Receive, Serve, Decode, PostAll, SocketID, Receivable, Subscribes;
    ReceivableFrames(Head(w, act).package, act.capacities);
    var s := SocketID(act.peer, act.port);
    var r := Serve(w.peers[act.peer], w.Bound(), Head(w, act).package, act.verdict);
    PostAllAdds(TakeHead(w.mail, s, r.fate), act.peer, r.out, s);
  }

  // ---------- all of it, over runs

  lemma InitialInStep(w: World, d: Dialogue)
    requires Initial(w) && d.a in w.peers && d.b in w.peers && d.port in w.peers[d.b].ports
    ensures InStep(w, d)
  {
    hide SocketID;
  }

  lemma {:induction false} DialogueInStep(ws: seq<World>, acts: seq<Action>, n: nat, d: Dialogue)
    requires RequestRun(ws, acts, d) && n < |ws|
    ensures InStep(ws[n], d)
    decreases n
  {
    hide Next, Enabled, Initial, InStep, Allowed, Inv;
    if n == 0 {
      InitialInStep(ws[0], d);
    } else {
      DialogueInStep(ws, acts, n - 1, d);
      RunStep(ws, acts, n - 1);
      RunInv(ws, acts, n - 1);
      var w, act := ws[n - 1], acts[n - 1];
      if act.peer == d.b {
        var reply := ServeAnswers(ws, acts, n - 1, d);
        AnswerStep(w, act, ws[n], d, Head(w, act), reply);
      } else if act.peer == d.a {
        AllowedA(w, act, ws[n], d);
        if act.DoPush? {
          AskStep(w, act, d);
        } else {
          TakeStep(w, act, d);
        }
      } else {
        OtherStep(w, act, d);
      }
    }
  }

  lemma AllowedA(w: World, act: Action, v: World, d: Dialogue)
    requires d.a in w.peers && d.b in w.peers && Allowed(w, act, v, d) && act.peer == d.a
    ensures act.DoPush? || act.DoAwait? || act.DoFetch?
  {
  }

  // Each reply was sent for the request with its number; both carry that number,
  // modulo 2^32, as their ID.
  lemma AnswerPairs(ws: seq<World>, acts: seq<Action>, n: nat, d: Dialogue, i: nat)
    requires RequestRun(ws, acts, d) && n < |ws| && i < |ws[n].answers| && ws[n].answers[i].who == d.b
    ensures var ans := ws[n].answers[i];
            d.Desk() in ws[n].mail.arrived && 1 <= ans.reply.serial <= |ws[n].mail.arrived[d.Desk()]| &&
            ans.request == ws[n].mail.arrived[d.Desk()][ans.reply.serial - 1] &&
            ans.request.from == d.a && ans.request.serial == ans.reply.serial && ans.reply.from == d.b &&
            Labelled(ans.request.package) && LabelOf(ans.request.package).messageID == ans.reply.serial % MOD32 &&
            Labelled(ans.reply.package) && LabelOf(ans.reply.package).messageID == ans.reply.serial % MOD32
  {
    hide Inv, SocketID, Decode, Next, By;
    DialogueInStep(ws, acts, n, d);
    var ans := ws[n].answers[i];
    assert Paired(ans, ws[n], d);
    assert IsRequest(ws[n].mail.arrived[d.Desk()][ans.reply.serial - 1], ans.reply.serial, ws[n].peers[d.b], d);
    RunInv(ws, acts, n);
    ArrivedHonest(ws[n], d.Desk(), ans.reply.serial - 1);
  }

  // b has sent exactly its serial number of replies. The k-th of them was sent for
  // a's k-th request, and both carry k modulo 2^32.
  lemma RequestsAndRepliesPair(ws: seq<World>, acts: seq<Action>, n: nat, d: Dialogue, k: nat)
    requires RequestRun(ws, acts, d) && n < |ws| && d.b in ws[n].peers && 1 <= k <= ws[n].peers[d.b].serial
    ensures var replies, w := By(ws[n].answers, d.b), ws[n];
            |replies| == w.peers[d.b].serial && d.Desk() in w.mail.arrived && k <= |w.mail.arrived[d.Desk()]| &&
            var request, reply := w.mail.arrived[d.Desk()][k - 1], replies[k - 1].reply;
            replies[k - 1].request == request && request.from == d.a && reply.from == d.b &&
            request.serial == k && reply.serial == k && Labelled(request.package) && Labelled(reply.package) &&
            LabelOf(request.package).messageID == LabelOf(reply.package).messageID == k % MOD32
  {
    hide Inv, SocketID, Decode, Next, RequestRun, By;
    DialogueInStep(ws, acts, n, d);
    var replies := By(ws[n].answers, d.b);
    assert replies[k - 1].reply.serial == k;
    var i :| 0 <= i < |ws[n].answers| && ws[n].answers[i] == replies[k - 1];
    AnswerPairs(ws, acts, n, d, i);
  }

  lemma ArrivedHonest(w: World, s: string, k: nat)
    requires Inv(w) && s in w.mail.arrived && k < |w.mail.arrived[s]|
    ensures HonestItem(w.mail.arrived[s][k], s, w.peers, w.Bound())
  {
  }

  // A turn of the request loop matches exactly the packages that carry the current
  // counter. For a package of b that means: it is the reply to a's latest request,
  // so long as it is fewer than 2^32 requests behind; every late reply is dropped.
  lemma RequestAcceptsItsAnswer(ws: seq<World>, acts: seq<Action>, n: nat, d: Dialogue) returns (i: nat)
    requires RequestRun(ws, acts, d) && n < |acts| && acts[n].DoAwait? && acts[n].peer == d.a
    requires Enabled(ws[n], acts[n]) && Head(ws[n], acts[n]).from == d.b
    ensures var w := ws[n];
            var item := Head(w, acts[n]);
            var fate := Await(w.peers[d.a], item.package).1;
            i < |w.answers| && w.answers[i].who == d.b && w.answers[i].reply == item &&
            w.answers[i].request.from == d.a && w.answers[i].request.serial == item.serial <= w.peers[d.a].serial &&
            (fate == Matched <==> item.serial % MOD32 == w.peers[d.a].serial % MOD32) &&
            (w.peers[d.a].serial - item.serial < MOD32 ==>
               (fate == Matched <==> w.answers[i].request.serial == w.peers[d.a].serial)) &&
            (fate != Matched ==> fate == WrongID)
  {
    hide Inv, SocketID, Decode, Next, Receive, Receivable;
    RunInv(ws, acts, n);
    DialogueInStep(ws, acts, n, d);
    var w := ws[n];
    HeadArrived(w, acts[n]);
    var item := Head(w, acts[n]);
    var s := SocketID(d.a, acts[n].port);
    assert IsReply(w.mail.arrived[s][|w.mail.taken[s]|], w.answers, d);
    i :| 0 <= i < |w.answers| && w.answers[i].who == d.b && w.answers[i].reply == item;
    assert Paired(w.answers[i], w, d);
    AnswerPairs(ws, acts, n, d, i);
    HeadAddressed(w, acts[n]);
    ReceiveKeeps(w.peers[d.a], item.package);
    if item.serial != w.peers[d.a].serial && w.peers[d.a].serial - item.serial < MOD32 {
      ModDiffers(item.serial, w.peers[d.a].serial);
    }
  }
}
