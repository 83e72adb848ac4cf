/**
 The request loop on values: what the packages it receives do to the peer, what
 arrives meanwhile, and how long it waits.
 */
module Waiting {
  import opened Words
  import opened Naming
  import opened Labels
  import opened Messages
  import opened Wire
  import opened Ports
  import opened Protocol

  // One package the loop received, and the port it came in on.
  datatype Turn = Turn(port: u16, package: Package)

  // How the loop ended: with the ID it waits for in the label buffer, with a poll that
  // found nothing in time, or with the time used up.
  datatype RequestEnd = Accepted | PollThrew | OutOfTime

  // The peer after receiving the packages of the turns.
  ghost function After(p: PeerState, turns: seq<Turn>): (q: PeerState)
    requires |p.labelBuf| == LABEL_SIZE && forall k :: 0 <= k < |turns| ==> |turns[k].package.frames| >= 2
    ensures |q.labelBuf| == LABEL_SIZE && q.counter == p.counter
  {
    if turns == [] then p else Receive(After(p, turns[..|turns| - 1]), turns[|turns| - 1].package)
  }

  // The ID the loop reads after the k-th turn.
  ghost function IDRead(p: PeerState, turns: seq<Turn>, k: nat): u32
    requires |p.labelBuf| == LABEL_SIZE && forall k :: 0 <= k < |turns| ==> |turns[k].package.frames| >= 2
    requires k < |turns|
  {
    After(p, turns[..k + 1]).Label().messageID
  }

  // The messages received into, after the packages of the turns: each package deals
  // its bodies over what the packages before it left.
  ghost function ValuesAfter(values: seq<MessageValue>, turns: seq<Turn>): (now: seq<MessageValue>)
    requires forall k :: 0 <= k < |turns| ==> |turns[k].package.frames| >= 2
    ensures |now| == |values|
  {
    if turns == [] then values
    else DealtBodies(ValuesAfter(values, turns[..|turns| - 1]), turns[|turns| - 1].package.frames[1..])
  }

  // One more turn leaves what the earlier turns read as it was.
  lemma TurnAdds(p: PeerState, turns: seq<Turn>, turn: Turn)
    requires |p.labelBuf| == LABEL_SIZE && forall k :: 0 <= k < |turns| ==> |turns[k].package.frames| >= 2
    requires |turn.package.frames| >= 2
    ensures After(p, turns + [turn]) == Receive(After(p, turns), turn.package)
    ensures forall k :: 0 <= k < |turns| ==> IDRead(p, turns + [turn], k) == IDRead(p, turns, k)
    ensures IDRead(p, turns + [turn], |turns|) == After(p, turns + [turn]).Label().messageID
  {
    hide Receive, Decode;
    var all := turns + [turn];
    assert all[..|turns|] == turns && all[..|turns| + 1] == all;
    forall k | 0 <= k < |turns|
      ensures IDRead(p, all, k) == IDRead(p, turns, k)
    {
      assert all[..k + 1] == turns[..k + 1];
    }
  }

  // Receiving puts a whole label into the buffer, and leaves the buffer alone if there is
  // none; the ID read after a turn is that of its package, or the one read before.
  lemma IDReadMeans(p: PeerState, turns: seq<Turn>, k: nat)
    requires |p.labelBuf| == LABEL_SIZE && forall j :: 0 <= j < |turns| ==> |turns[j].package.frames| >= 2
    requires k < |turns|
    ensures Labelled(turns[k].package) ==> IDRead(p, turns, k) == LabelOf(turns[k].package).messageID
    ensures turns[k].package.frames[1] == "" ==>
              IDRead(p, turns, k) == if k == 0 then p.Label().messageID else IDRead(p, turns, k - 1)
    ensures IDRead(p, turns, k) == p.counter <==> Await(After(p, turns[..k]), turns[k].package).1 == Matched
  {
    hide Decode;
    assert turns[..k + 1][..k] == turns[..k];
    var was, package := After(p, turns[..k]), turns[k].package;
    assert After(p, turns[..k + 1]) == Receive(was, package);
    if Labelled(package) {
      assert package.frames[1] + was.labelBuf[LABEL_SIZE..] == package.frames[1];
    }
    if package.frames[1] == "" {
      assert "" + was.labelBuf[0..] == was.labelBuf;
    }
  }

  // What the deliveries add to inbox s.
  ghost function ArrivedIn(out: seq<Delivery>, s: string): seq<Package> {
    if out == [] then []
    else (if out[0].target == s then [out[0].package] else []) + ArrivedIn(out[1..], s)
  }

  ghost function Arrivals(arrivals: nat -> seq<Delivery>, n: nat, s: string): seq<Package> {
    if n == 0 then [] else Arrivals(arrivals, n - 1, s) + ArrivedIn(arrivals(n - 1), s)
  }

  ghost function TakenAt(turns: seq<Turn>, port: u16): seq<Package> {
    if turns == [] then []
    else TakenAt(turns[..|turns| - 1], port) +
         if turns[|turns| - 1].port == port then [turns[|turns| - 1].package] else []
  }

  // Every port's inbox: what was there and what arrived is what was taken, in
  // order, and what is there now.
  ghost predicate Balanced(was: map<string, seq<Package>>, arrivals: nat -> seq<Delivery>, n: nat, turns: seq<Turn>,
                           now: map<string, seq<Package>>, hubName: string, ports: set<u16>)
  {
    forall i :: i in ports ==>
      var s := HubSocket(hubName, i);
      s in was && s in now && was[s] + Arrivals(arrivals, n, s) == TakenAt(turns, i) + now[s]
  }

  ghost predicate AllBound(out: seq<Delivery>, bound: set<string>) {
    forall k :: 0 <= k < |out| ==> out[k].target in bound
  }

  // Every package goes to an inbox that is there and can be received.
  ghost predicate Fitting(out: seq<Delivery>, bound: set<string>, capacities: seq<nat>) {
    AllBound(out, bound) && forall k :: 0 <= k < |out| ==> Receivable(out[k].package, capacities)
  }

  lemma {:induction false} DeliverAt(packages: map<string, seq<Package>>, out: seq<Delivery>, s: string)
    requires AllBound(out, packages.Keys) && s in packages
    ensures Deliver(packages, out).Keys == packages.Keys
    ensures Deliver(packages, out)[s] == packages[s] + ArrivedIn(out, s)
    decreases |out|
  {
    if out != [] {
      var d := out[0];
      var next := packages[d.target := packages[d.target] + [d.package]];
      var rest := out[1..];
      assert next.Keys == packages.Keys;
      assert AllBound(rest, next.Keys);
      DeliverAt(next, rest, s);
      var first := if d.target == s then [d.package] else [];
      assert next[s] == packages[s] + first;
      assert packages[s] + first + ArrivedIn(rest, s) == packages[s] + (first + ArrivedIn(rest, s));
    }
  }

  lemma BalancedAtStart(was: map<string, seq<Package>>, arrivals: nat -> seq<Delivery>, hubName: string,
                        ports: set<u16>)
    requires forall i :: i in ports ==> HubSocket(hubName, i) in was
    ensures Balanced(was, arrivals, 0, [], was, hubName, ports)
  {
    hide HubSocket;
    forall i | i in ports
      ensures was[HubSocket(hubName, i)] + [] == [] + was[HubSocket(hubName, i)]
    {
    }
  }

  lemma ArrivalsBalance(was: map<string, seq<Package>>, arrivals: nat -> seq<Delivery>, n: nat, turns: seq<Turn>,
                        now: map<string, seq<Package>>, hubName: string, ports: set<u16>)
    requires Balanced(was, arrivals, n, turns, now, hubName, ports) && AllBound(arrivals(n), now.Keys)
    ensures Balanced(was, arrivals, n + 1, turns, Deliver(now, arrivals(n)), hubName, ports)
  {
    hide HubSocket, ArrivedIn, Deliver;
    var next := Deliver(now, arrivals(n));
    forall i | i in ports
      ensures var s := HubSocket(hubName, i);
              s in was && s in next && was[s] + Arrivals(arrivals, n + 1, s) == TakenAt(turns, i) + next[s]
    {
      var s := HubSocket(hubName, i);
      DeliverAt(now, arrivals(n), s);
      var more := ArrivedIn(arrivals(n), s);
      assert was[s] + (Arrivals(arrivals, n, s) + more) == (was[s] + Arrivals(arrivals, n, s)) + more;
      assert (TakenAt(turns, i) + now[s]) + more == TakenAt(turns, i) + (now[s] + more);
    }
  }

  lemma TakingBalances(was: map<string, seq<Package>>, arrivals: nat -> seq<Delivery>, n: nat, turns: seq<Turn>,
                       now: map<string, seq<Package>>, hubName: string, ports: set<u16>, port: u16)
    requires Balanced(was, arrivals, n, turns, now, hubName, ports) && port in ports
    requires HubSocket(hubName, port) in now && now[HubSocket(hubName, port)] != []
    ensures var s := HubSocket(hubName, port);
            Balanced(was, arrivals, n, turns + [Turn(port, now[s][0])], now[s := now[s][1..]], hubName, ports)
  {
    hide HubSocket, Arrivals;
    var s := HubSocket(hubName, port);
    var turn := Turn(port, now[s][0]);
    var next := now[s := now[s][1..]];
    assert (turns + [turn])[..|turns|] == turns;
    forall i | i in ports
      ensures var t := HubSocket(hubName, i);
              t in was && t in next && was[t] + Arrivals(arrivals, n, t) == TakenAt(turns + [turn], i) + next[t]
    {
      HubSocketInjective(hubName, i, port);
      if i == port {
        assert now[s] == [now[s][0]] + now[s][1..];
        assert TakenAt(turns, i) + now[s] == TakenAt(turns, i) + [now[s][0]] + now[s][1..];
      } else {
        assert TakenAt(turns + [turn], i) == TakenAt(turns, i);
      }
    }
  }

  // The head of inbox s was received by the peer in state p.
  ghost predicate Taken(p: PeerState, q: PeerState, was: map<string, seq<Package>>, now: map<string, seq<Package>>,
                        s: string)
  {
    s in was && was[s] != [] && |was[s][0].frames| >= 2 && |p.labelBuf| == LABEL_SIZE &&
    now == was[s := was[s][1..]] && q == Receive(p, was[s][0])
  }

  // ---------- the loop

  // What the loop starts from: the peer, the caller's messages and the inboxes, what
  // others send during the k-th wait, the k-th reading of the clock, and the time allowed.
  datatype Setting = Setting(start: PeerState, values: seq<MessageValue>, was: map<string, seq<Package>>,
                             arrivals: nat -> seq<Delivery>, clock: nat -> int, timeout: int)

  // What it has done: the peer, the messages and the inboxes now, what it received,
  // how long each poll was allowed to wait.
  datatype Loop = Loop(peer: PeerState, values: seq<MessageValue>, now: map<string, seq<Package>>,
                       turns: seq<Turn>, waits: seq<int>)

  function Sizes(values: seq<MessageValue>): seq<nat> {
    seq(|values|, i requires 0 <= i < |values| => |values[i].data|)
  }

  // The clock never goes back, and left(k) bounds how long it stands still.
  ghost predicate Advances(clock: nat -> int, left: nat -> nat, k: nat) {
    clock(k) < clock(k + 1) || (clock(k) == clock(k + 1) && left(k + 1) < left(k))
  }

  // The k-th wait is for the time then left, never negative and never longer than
  // the whole.
  ghost predicate WaitFits(wait: int, k: nat, clock: nat -> int, timeout: int) {
    wait == timeout - (clock(k) - clock(0)) && wait <= timeout && (timeout >= 0 ==> 0 <= wait)
  }

  // Nothing that arrived is lost or taken out of turn, peer and messages are what
  // receiving those packages makes of them, and every wait fits.
  ghost predicate Accounted(s: Setting, l: Loop) {
    |s.start.labelBuf| == LABEL_SIZE && (forall k :: 0 <= k < |l.turns| ==> |l.turns[k].package.frames| >= 2) &&
    (forall k :: 0 <= k < |l.turns| ==> Receivable(l.turns[k].package, Sizes(s.values))) &&
    l.peer == After(s.start, l.turns) && l.values == ValuesAfter(s.values, l.turns) &&
    Balanced(s.was, s.arrivals, |l.waits|, l.turns, l.now, PeerIDtoHubName(s.start.id), s.start.ports) &&
    forall k :: 0 <= k < |l.waits| ==> WaitFits(l.waits[k], k, s.clock, s.timeout)
  }

  // After no package so far did the label buffer hold the ID that is waited for.
  ghost predicate Going(s: Setting, l: Loop) {
    Accounted(s, l) && |l.waits| == |l.turns| &&
    forall k :: 0 <= k < |l.turns| ==> IDRead(s.start, l.turns, k) != s.start.counter
  }

  // The loop ended at the first package that left the ID in the label buffer, having
  // dropped exactly those before it, or with none of them at a poll that threw or out of time.
  ghost predicate Ended(s: Setting, l: Loop, end: RequestEnd) {
    Accounted(s, l) && |l.waits| == |l.turns| + (if end.PollThrew? then 1 else 0) &&
    (forall k :: 0 <= k < |l.turns| ==>
       (IDRead(s.start, l.turns, k) == s.start.counter <==> end.Accepted? && k == |l.turns| - 1)) &&
    (end.Accepted? ==> l.turns != []) &&
    (end.OutOfTime? ==> s.clock(|l.turns|) - s.clock(0) > s.timeout)
  }

  // So every labelled package the loop took but the last had another ID, and the last
  // has the ID that was waited for if and only if the loop accepted it.
  lemma EndedByID(s: Setting, l: Loop, end: RequestEnd, k: nat)
    requires Ended(s, l, end) && k < |l.turns| && Labelled(l.turns[k].package)
    ensures LabelOf(l.turns[k].package).messageID == s.start.counter <==> end.Accepted? && k == |l.turns| - 1
  {
    hide Balanced, After, IDRead, ValuesAfter, Receivable, Decode;
    IDReadMeans(s.start, l.turns, k);
  }

  lemma Starts(s: Setting)
    requires |s.start.labelBuf| == LABEL_SIZE
    requires forall i :: i in s.start.ports ==> SocketID(s.start.id, i) in s.was
    ensures Going(s, Loop(s.start, s.values, s.was, [], []))
  {
    hide HubSocket, Balanced;
    BalancedAtStart(s.was, s.arrivals, PeerIDtoHubName(s.start.id), s.start.ports);
  }

  // One more package: the loop goes on or ends with it.
  lemma TurnMade(s: Setting, l: Loop, port: u16, q: PeerState, values: seq<MessageValue>,
                 now: map<string, seq<Package>>, wait: int, capacities: seq<nat>)
    returns (next: Loop)
    requires Going(s, l) && port in s.start.ports
    requires var n := |l.turns|;
             Fitting(s.arrivals(n), l.now.Keys, capacities) && WaitFits(wait, n, s.clock, s.timeout) &&
             var before := Deliver(l.now, s.arrivals(n));
             var socket := SocketID(s.start.id, port);
             Taken(l.peer, q, before, now, socket) && Receivable(before[socket][0], Sizes(s.values)) &&
             values == DealtBodies(l.values, before[socket][0].frames[1..])
    ensures next.peer == q && next.values == values && next.now == now && |next.turns| == |l.turns| + 1
    ensures if q.Label().messageID == s.start.counter then Ended(s, next, RequestEnd.Accepted) else Going(s, next)
  {
    hide HubSocket, Balanced, After, IDRead, Deliver, Receive, WaitFits, PeerIDtoHubName, Decode, Receivable,
         DealtBodies;
    var n, hubName, ports := |l.turns|, PeerIDtoHubName(s.start.id), s.start.ports;
    var before := Deliver(l.now, s.arrivals(n));
    var turn := Turn(port, before[SocketID(s.start.id, port)][0]);
    ArrivalsBalance(s.was, s.arrivals, n, l.turns, l.now, hubName, ports);
    TakingBalances(s.was, s.arrivals, n + 1, l.turns, before, hubName, ports, port);
    TurnAdds(s.start, l.turns, turn);
    assert (l.turns + [turn])[..n] == l.turns;
    next := Loop(q, values, now, l.turns + [turn], l.waits + [wait]);
  }

  lemma TimeIsUp(s: Setting, l: Loop)
    requires Going(s, l) && s.clock(|l.turns|) - s.clock(0) > s.timeout
    ensures Ended(s, l, OutOfTime)
  {
    hide Accounted, IDRead;
  }

  // A last wait in which nothing arrives at this peer.
  lemma WaitMade(s: Setting, l: Loop, wait: int, capacities: seq<nat>) returns (next: Loop)
    requires Going(s, l)
    requires var n := |l.turns|; Fitting(s.arrivals(n), l.now.Keys, capacities) && WaitFits(wait, n, s.clock, s.timeout)
    ensures next.peer == l.peer && next.values == l.values && next.now == Deliver(l.now, s.arrivals(|l.turns|)) &&
            Ended(s, next, PollThrew)
  {
    hide HubSocket, Balanced, After, IDRead, Deliver, WaitFits, PeerIDtoHubName, Receivable, ValuesAfter;
    ArrivalsBalance(s.was, s.arrivals, |l.turns|, l.turns, l.now, PeerIDtoHubName(s.start.id), s.start.ports);
    next := l.(now := Deliver(l.now, s.arrivals(|l.turns|)), waits := l.waits + [wait]);
  }

  // ---------- what the caller's messages hold

  // The last of the packages with a body for message i.
  ghost predicate LastFor(turns: seq<Turn>, i: nat, k: nat) {
    k < |turns| && |turns[k].package.frames| > i + 2 &&
    forall j :: k < j < |turns| ==> |turns[j].package.frames| <= i + 2
  }

  lemma DealtSizes(was: seq<MessageValue>, package: Package, sizes: seq<nat>)
    requires Sizes(was) == sizes && Receivable(package, sizes)
    ensures |package.frames| >= 2 && Sizes(DealtBodies(was, package.frames[1..])) == sizes
    ensures Fits(package.frames[1..], |was| + 1, |was[|was| - 1].data|)
  {
    hide Fits, Decoded;
    assert sizes[|sizes| - 1] == |was[|was| - 1].data|;
    forall j | 0 <= j < |was|
      ensures |DealtBodies(was, package.frames[1..])[j].data| == sizes[j]
    {
      BodyShare(was, package.frames[1..], j);
    }
  }

  lemma {:induction false} SizesKept(values: seq<MessageValue>, turns: seq<Turn>)
    requires values != [] && forall k :: 0 <= k < |turns| ==> Receivable(turns[k].package, Sizes(values))
    ensures forall k :: 0 <= k < |turns| ==> |turns[k].package.frames| >= 2
    ensures Sizes(ValuesAfter(values, turns)) == Sizes(values)
    decreases |turns|
  {
    hide Receivable, Fits, DealtBodies, Decoded, Sizes;
    if turns != [] {
      var n := |turns| - 1;
      SizesKept(values, turns[..n]);
      DealtSizes(ValuesAfter(values, turns[..n]), turns[n].package, Sizes(values));
    }
  }

  // One more package: message i gets its share of it, or is as it was.
  lemma OneMoreDealt(values: seq<MessageValue>, turns: seq<Turn>, i: nat)
    requires i < |values| && turns != [] && forall k :: 0 <= k < |turns| ==> Receivable(turns[k].package, Sizes(values))
    ensures forall k :: 0 <= k < |turns| ==> |turns[k].package.frames| >= 2
    ensures var n := |turns| - 1;
            var now, body := ValuesAfter(values, turns)[i], turns[n].package.frames[2..];
            if i < |body| then HoldsShare(now, body, i, |values|) else now == ValuesAfter(values, turns[..n])[i]
  {
    hide Receivable, Fits, DealtBodies, HoldsShare, Decoded, Sizes;
    var n := |turns| - 1;
    SizesKept(values, turns[..n]);
    var was, package := ValuesAfter(values, turns[..n]), turns[n].package;
    SizesKept(values, turns);
    DealtSizes(was, package, Sizes(values));
    assert package.frames[1..][1..] == package.frames[2..];
    BodyShare(was, package.frames[1..], i);
  }

  // Message i holds its share of the bodies of the last package that had one for it,
  // be that package accepted or dropped.
  lemma {:induction false} HoldsLast(values: seq<MessageValue>, turns: seq<Turn>, i: nat, last: nat)
    requires i < |values| && forall k :: 0 <= k < |turns| ==> Receivable(turns[k].package, Sizes(values))
    requires LastFor(turns, i, last)
    ensures forall k :: 0 <= k < |turns| ==> |turns[k].package.frames| >= 2
    ensures HoldsShare(ValuesAfter(values, turns)[i], turns[last].package.frames[2..], i, |values|)
    decreases |turns|
  {
    hide Receivable, HoldsShare, Sizes, ValuesAfter;
    OneMoreDealt(values, turns, i);
    if last < |turns| - 1 {
      HoldsLast(values, turns[..|turns| - 1], i, last);
    }
  }

  // If no package had one for it, it holds what it held before the loop.
  lemma {:induction false} HoldsNone(values: seq<MessageValue>, turns: seq<Turn>, i: nat)
    requires i < |values| && forall k :: 0 <= k < |turns| ==> Receivable(turns[k].package, Sizes(values))
    requires forall k :: 0 <= k < |turns| ==> |turns[k].package.frames| <= i + 2
    ensures forall k :: 0 <= k < |turns| ==> |turns[k].package.frames| >= 2
    ensures ValuesAfter(values, turns)[i] == values[i]
    decreases |turns|
  {
    hide Receivable, HoldsShare, Sizes;
    if turns != [] {
      OneMoreDealt(values, turns, i);
      HoldsNone(values, turns[..|turns| - 1], i);
    }
  }

  // What the caller's messages hold however the loop ends: their shares of the last
  // packages that had bodies for them, or else what they held before.
  lemma LoopContents(s: Setting, l: Loop, end: RequestEnd, i: nat)
    requires Ended(s, l, end) && i < |s.values|
    ensures |l.values| == |s.values| && |l.values[i].data| == |s.values[i].data|
    ensures forall k: nat :: LastFor(l.turns, i, k) ==>
              HoldsShare(l.values[i], l.turns[k].package.frames[2..], i, |s.values|)
    ensures (forall k :: 0 <= k < |l.turns| ==> |l.turns[k].package.frames| <= i + 2) ==> l.values[i] == s.values[i]
  {
    hide Balanced, After, IDRead, Receivable, HoldsShare, ValuesAfter;
    SizesKept(s.values, l.turns);
    assert Sizes(l.values)[i] == Sizes(s.values)[i];
    forall k: nat | LastFor(l.turns, i, k)
      ensures HoldsShare(l.values[i], l.turns[k].package.frames[2..], i, |s.values|)
    {
      HoldsLast(s.values, l.turns, i, k);
    }
    if forall k :: 0 <= k < |l.turns| ==> |l.turns[k].package.frames| <= i + 2 {
      HoldsNone(s.values, l.turns, i);
    }
  }

  // An accepted request delivers: the package with the ID is the last one taken, and
  // each message for which it has a body holds its share of that body.
  lemma AcceptedContents(s: Setting, l: Loop, i: nat)
    requires Ended(s, l, RequestEnd.Accepted) && i < |s.values|
    ensures l.turns != [] && |l.values| == |s.values| && |l.turns[|l.turns| - 1].package.frames| >= 2
    ensures var body := l.turns[|l.turns| - 1].package.frames[2..];
            i < |body| ==> HoldsShare(l.values[i], body, i, |s.values|)
  {
    hide Balanced, After, IDRead, Receivable, HoldsShare;
    LoopContents(s, l, RequestEnd.Accepted, i);
    var last: nat := |l.turns| - 1;
    if |l.turns[last].package.frames| > i + 2 {
      assert LastFor(l.turns, i, last);
    }
  }

  // ---------- time

  ghost function Sum(waited: seq<int>): int {
    if waited == [] then 0 else Sum(waited[..|waited| - 1]) + waited[|waited| - 1]
  }

  // However the loop ends: if no poll waits longer than it was allowed to, and every
  // poll but the last was over before the clock was read again, then all the waiting
  // together took no longer than the timeout.
  lemma TotalWaiting(s: Setting, l: Loop, end: RequestEnd, waited: seq<int>)
    requires Ended(s, l, end) && s.timeout >= 0 && |waited| == |l.waits|
    requires forall k :: 0 <= k < |waited| ==> waited[k] <= l.waits[k]
    requires forall k :: 0 <= k < |waited| - 1 ==> waited[k] <= s.clock(k + 1) - s.clock(k)
    ensures Sum(waited) <= s.timeout
  {
    hide Balanced, After, IDRead, ValuesAfter, Sizes, Receivable;
    if waited != [] {
      var last := |waited| - 1;
      WaitedSoFar(s.clock, waited, last);
      assert WaitFits(l.waits[last], last, s.clock, s.timeout);
    }
  }

  lemma {:induction false} WaitedSoFar(clock: nat -> int, waited: seq<int>, n: nat)
    requires n < |waited| && forall k :: 0 <= k < |waited| - 1 ==> waited[k] <= clock(k + 1) - clock(k)
    ensures Sum(waited[..n]) <= clock(n) - clock(0)
    decreases n
  {
    if n > 0 {
      WaitedSoFar(clock, waited, n - 1);
      assert waited[..n][..n - 1] == waited[..n - 1];
    }
  }
}
