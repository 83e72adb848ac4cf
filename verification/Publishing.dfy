/** What a send and a publish put on the network, and what a receiver makes of it. */
module Publishing {
  import opened Words
  import opened Naming
  import opened Labels
  import opened Messages
  import opened Wire
  import opened Ports
  import opened Protocol

  // One send: one package if the local port exists and the target can be reached,
  // none otherwise, and one stamp either way. The package carries a whole label
  // exactly when the label's frame was loaded, and the send uses the frame up. The
  // label is the caller's, but for the ID and for the source peer.
  lemma SendMeaning(p: PeerState, bound: set<string>, header: Contents, body: seq<string>)
    requires p.Valid()
    ensures var r := Send(p, bound, header, body);
            var target := SocketID(header.dest.peer, header.dest.port);
            var source := Endpoint(p.id, header.src.port, header.src.iface);
            r.peer.serial == p.serial + 1 && r.peer.counter == (p.counter + 1) % MOD32 &&
            (r.outcome == Sent <==> header.src.port in p.ports && target in bound) &&
            (r.outcome != Sent ==> r.out == [] && r.body == body && r.peer.labelLen == p.labelLen) &&
            (r.outcome == Sent ==>
               |r.out| == 1 && r.out[0].target == target && r.out[0].serial == r.peer.serial &&
               r.out[0].package.sender == SocketID(p.id, header.src.port) &&
               |r.out[0].package.frames| == |body| + 2 && r.out[0].package.frames[2..] == body &&
               r.out[0].package.frames[0] == "" &&
               |r.out[0].package.frames[1]| == p.labelLen && r.peer.labelLen == 0 &&
               (Labelled(r.out[0].package) <==> p.Loaded()) &&
               (p.Loaded() ==>
                  LabelOf(r.out[0].package) == Contents(r.peer.counter, header.kind, source, header.dest)) &&
               !r.peer.Loaded() && r.body == Blank(|body|))
  {
    hide SocketID, Encode, Decode;
    var r := Send(p, bound, header, body);
    if r.outcome == Sent {
      var package := r.out[0].package;
      assert package.frames[2..] == body;
      assert package.frames[1] == r.peer.labelBuf[..p.labelLen];
      if p.Loaded() {
        assert package.frames[1] == r.peer.labelBuf;
        LabelRoundTrip(header.From(p.id).(messageID := r.peer.counter));
      }
    }
  }

  // What a send leaves behind, whatever its outcome: the caller's label has only its
  // source peer changed; the label buffer holds that label with the new ID; ports,
  // interfaces and subscriptions are as they were; sent frames are empty.
  lemma SendLeaves(p: PeerState, bound: set<string>, header: Contents, body: seq<string>)
    requires p.Valid()
    ensures var r := Send(p, bound, header, body);
            var source := Endpoint(p.id, header.src.port, header.src.iface);
            r.header == Contents(header.messageID, header.kind, source, header.dest) &&
            r.outcome == (if header.src.port !in p.ports then NoLocalPort
                          else if SocketID(header.dest.peer, header.dest.port) !in bound then Unroutable
                          else Sent) &&
            r.peer.Valid() && r.peer.Label() == Contents(r.peer.counter, header.kind, source, header.dest) &&
            r.peer.id == p.id && r.peer.ports == p.ports &&
            r.peer.interfaces == p.interfaces && r.peer.subs == p.subs &&
            |r.body| == |body| && forall k :: 0 <= k < |body| ==> r.body[k] == if r.outcome == Sent then "" else body[k]
  {
    hide SocketID, Encode, Decode;
    NextCounter(p.serial);
    LabelRoundTrip(header.From(p.id).(messageID := (p.counter + 1) % MOD32));
  }

  // A send uses the label's frame up, and only a receive builds it again. So of two
  // sends with no receive between them the second carries no label, whatever its
  // header says, and its receiver acts on the label it received before.
  lemma SecondSendHasNoLabel(p: PeerState, bound: set<string>, first: Contents, body: seq<string>,
                             second: Contents, more: seq<string>, q: PeerState, verdict: Verdict)
    requires p.Valid() && q.Valid() && Send(p, bound, first, body).outcome == Sent
    requires Send(Send(p, bound, first, body).peer, bound, second, more).outcome == Sent
    ensures var package := Send(Send(p, bound, first, body).peer, bound, second, more).out[0].package;
            !Labelled(package) && package.frames[1] == "" && package.frames[2..] == more &&
            Receive(q, package).Label() == q.Label() &&
            Serve(q, bound, package, verdict).fate ==
              if q.Label().dest.iface in q.interfaces then Handled(q.Label().dest.iface, verdict.pass)
              else UnknownInterface
  {
    hide SocketID, Encode, Decode;
    var mid := Send(p, bound, first, body).peer;
    SendEmits(p, bound, first, body);
    SendMeaning(mid, bound, second, more);
    ReceiveKeeps(q, Send(mid, bound, second, more).out[0].package);
  }

  // ---------- publish

  // The push to this receipt throws: the local port is there, the target is not.
  predicate Blocks(receipt: Contents, ports: set<u16>, bound: set<string>) {
    receipt.src.port in ports && SocketID(receipt.dest.peer, receipt.dest.port) !in bound
  }

  // How many receipts are served before the first push that throws.
  function Stop(receipts: seq<Contents>, ports: set<u16>, bound: set<string>): (n: nat)
    ensures n <= |receipts| && forall j :: 0 <= j < n ==> !Blocks(receipts[j], ports, bound)
    ensures n < |receipts| ==> Blocks(receipts[n], ports, bound)
  {
    if receipts == [] || Blocks(receipts[0], ports, bound) then 0 else 1 + Stop(receipts[1..], ports, bound)
  }

  // How many receipts name a local port that is there; the others only cost a stamp.
  function Leaves(receipts: seq<Contents>, ports: set<u16>): nat {
    if receipts == [] then 0 else (if receipts[0].src.port in ports then 1 else 0) + Leaves(receipts[1..], ports)
  }

  lemma LeavesBehind(receipts: seq<Contents>, ports: set<u16>, j: nat)
    requires 1 <= j <= |receipts|
    ensures Leaves(receipts[..j], ports) ==
            (if receipts[0].src.port in ports then 1 else 0) + Leaves(receipts[1..][..j - 1], ports)
  {
    assert receipts[..j][1..] == receipts[1..][..j - 1];
  }

  // The package of a publish for the j-th of the receipts to come; `first` says that
  // no other package of this publish left before it.
  ghost predicate PublishedTo(d: Delivery, receipt: Contents, p: PeerState, j: nat, first: bool, body: seq<string>) {
    d.target == SocketID(receipt.dest.peer, receipt.dest.port) &&
    d.package.sender == SocketID(p.id, receipt.src.port) &&
    d.serial == p.serial + j + 1 &&
    |d.package.frames| == |body| + 2 &&
    d.package.frames[2..] == (if first then body else Blank(|body|)) &&
    (Labelled(d.package) <==> first && p.Loaded()) &&
    (Labelled(d.package) ==>
       LabelOf(d.package) ==
       Contents(d.serial % MOD32, receipt.kind, Endpoint(p.id, receipt.src.port, receipt.src.iface), receipt.dest))
  }

  ghost predicate AllPublished(out: seq<Delivery>, receipts: seq<Contents>, p: PeerState, n: nat, body: seq<string>)
    requires n <= |receipts|
  {
    |out| == Leaves(receipts[..n], p.ports) &&
    forall j :: 0 <= j < n && receipts[j].src.port in p.ports ==>
      var at := Leaves(receipts[..j], p.ports);
      at < |out| && PublishedTo(out[at], receipts[j], p, j, at == 0, body)
  }

  lemma {:induction false} PublishLoop(p: PeerState, bound: set<string>, iface: u16, k: nat, body: seq<string>)
    requires p.Valid() && iface in p.subs && k <= |p.subs[iface]|
    ensures var r := PublishFrom(p, bound, iface, k, body);
            var receipts := p.subs[iface][k..];
            var n := Stop(receipts, p.ports, bound);
            (r.ok <==> n == |receipts|) && AllPublished(r.out, receipts, p, n, body) &&
            r.peer.serial == p.serial + if r.ok then n else n + 1
    decreases |p.subs[iface]| - k
  {
    hide Send, SocketID, Decode, PublishedTo, AllPublished, Leaves;
    var receipts := p.subs[iface][k..];
    PublishOnce(p, bound, iface, k, body);
    if k == |p.subs[iface]| {
      NonePublished(receipts, p, body);
      return;
    }
    var s := Send(p, bound, receipts[0], body);
    SendMeaning(p, bound, receipts[0], body);
    SendEmits(p, bound, receipts[0], body);
    WhenUnroutable(p, bound, receipts[0], body);
    if Blocks(receipts[0], p.ports, bound) {
      assert Stop(receipts, p.ports, bound) == 0;
      NonePublished(receipts, p, body);
      return;
    }
    var q := s.peer.(subs := p.subs[iface := p.subs[iface][k := s.header]]);
    PublishLoop(q, bound, iface, k + 1, s.body);
    assert q.subs[iface][k + 1..] == receipts[1..];
    var rest := PublishFrom(q, bound, iface, k + 1, s.body);
    OneMorePublished(p, bound, receipts, q, s, rest.out, Stop(receipts[1..], p.ports, bound), body);
  }

  lemma WhenUnroutable(p: PeerState, bound: set<string>, receipt: Contents, body: seq<string>)
    requires p.Valid()
    ensures Send(p, bound, receipt, body).outcome == Unroutable <==> Blocks(receipt, p.ports, bound)
  {
    hide SocketID, Encode;
  }

  lemma NonePublished(receipts: seq<Contents>, p: PeerState, body: seq<string>)
    ensures AllPublished([], receipts, p, 0, body)
  {
  }

  // One receipt is served, and then n of the others.
  lemma OneMorePublished(p: PeerState, bound: set<string>, receipts: seq<Contents>, q: PeerState, s: SendResult,
                         rest: seq<Delivery>, n: nat, body: seq<string>)
    requires p.Valid() && n < |receipts| && !Blocks(receipts[0], p.ports, bound)
    requires s == Send(p, bound, receipts[0], body) && q == s.peer.(subs := q.subs)
    requires q.ports == p.ports && AllPublished(rest, receipts[1..], q, n, s.body)
    ensures AllPublished(s.out + rest, receipts, p, n + 1, body)
  {
    hide Send, SocketID, Decode, PublishedTo, Leaves;
    SendMeaning(p, bound, receipts[0], body);
    SendEmits(p, bound, receipts[0], body);
    LeavesBehind(receipts, p.ports, n + 1);
    var out := s.out + rest;
    forall j | 0 <= j < n + 1 && receipts[j].src.port in p.ports
      ensures var at := Leaves(receipts[..j], p.ports);
              at < |out| && PublishedTo(out[at], receipts[j], p, j, at == 0, body)
    {
      var at := Leaves(receipts[..j], p.ports);
      if j == 0 {
        assert at == 0 by { assert receipts[..0] == []; NoLeaves(p.ports); }
        FirstPublished(p, bound, receipts[0], body);
        assert out[0] == s.out[0];
      } else {
        LeavesBehind(receipts, p.ports, j);
        var before := Leaves(receipts[1..][..j - 1], p.ports);
        assert receipts[1..][j - 1] == receipts[j];
        assert before < |rest| && PublishedTo(rest[before], receipts[j], q, j - 1, before == 0, s.body);
        assert out[at] == rest[before];
        LaterPublished(rest[before], receipts[j], p, q, j, before == 0, s, body);
      }
    }
  }

  lemma NoLeaves(ports: set<u16>)
    ensures Leaves([], ports) == 0
  {
  }

  lemma FirstPublished(p: PeerState, bound: set<string>, receipt: Contents, body: seq<string>)
    requires p.Valid() && Send(p, bound, receipt, body).outcome == Sent
    ensures PublishedTo(Send(p, bound, receipt, body).out[0], receipt, p, 0, true, body)
  {
    hide Send, SocketID, Decode;
    SendMeaning(p, bound, receipt, body);
    NextCounter(p.serial);
  }

  lemma LaterPublished(d: Delivery, receipt: Contents, p: PeerState, q: PeerState, j: nat, first: bool,
                       s: SendResult, body: seq<string>)
    requires j >= 1 && q.id == p.id && q.serial == p.serial + 1 && PublishedTo(d, receipt, q, j - 1, first, s.body)
    requires s.out == [] ==> s.body == body && q.labelLen == p.labelLen
    requires s.out != [] ==> s.body == Blank(|body|) && !q.Loaded()
    ensures PublishedTo(d, receipt, p, j, s.out == [] && first, body)
  {
    hide SocketID, Decode;
  }

  // The receipts from k up to `to` have been stamped with peer p as source, and nothing
  // else in them or in the others has changed.
  ghost predicate StampedReceipts(now: seq<Contents>, was: seq<Contents>, k: nat, to: nat, p: u16) {
    |now| == |was| &&
    forall j :: 0 <= j < |was| ==>
      now[j] ==
      if k <= j < to
      then Contents(was[j].messageID, was[j].kind, Endpoint(p, was[j].src.port, was[j].src.iface), was[j].dest)
      else was[j]
  }

  // The peer after a publish to the receipts from k up to `to` of one interface.
  ghost predicate PeerAfter(q: PeerState, p: PeerState, iface: u16, k: nat, to: nat, sent: bool)
    requires iface in p.subs && k <= to <= |p.subs[iface]|
  {
    q.Valid() && q.id == p.id && q.ports == p.ports && q.interfaces == p.interfaces && q.subs.Keys == p.subs.Keys &&
    (forall i :: i in p.subs && i != iface ==> q.subs[i] == p.subs[i]) &&
    StampedReceipts(q.subs[iface], p.subs[iface], k, to, p.id) &&
    q.serial == p.serial + (to - k) && q.labelLen == (if sent then 0 else p.labelLen) &&
    (k == to ==> q.labelBuf == p.labelBuf) &&
    (k < to ==>
       var last := p.subs[iface][to - 1];
       q.Label() == Contents(q.counter, last.kind, Endpoint(p.id, last.src.port, last.src.iface), last.dest))
  }

  lemma PeerAfterNone(p: PeerState, iface: u16, k: nat)
    requires p.Valid() && iface in p.subs && k <= |p.subs[iface]|
    ensures PeerAfter(p, p, iface, k, k, false)
  {
  }

  // One receipt was tried, and then the others up to `to`.
  lemma PeerAfterMore(p: PeerState, bound: set<string>, iface: u16, k: nat, to: nat, body: seq<string>,
                      q: PeerState, r: PeerState, sent: bool)
    requires p.Valid() && iface in p.subs && k < to <= |p.subs[iface]|
    requires var s := Send(p, bound, p.subs[iface][k], body);
             q == s.peer.(subs := p.subs[iface := p.subs[iface][k := s.header]])
    requires PeerAfter(r, q, iface, k + 1, to, sent)
    ensures PeerAfter(r, p, iface, k, to, Send(p, bound, p.subs[iface][k], body).out != [] || sent)
  {
    hide Send, SocketID, Decode;
    SendMeaning(p, bound, p.subs[iface][k], body);
    SendLeaves(p, bound, p.subs[iface][k], body);
  }

  lemma {:induction false} PublishLeaves(p: PeerState, bound: set<string>, iface: u16, k: nat, body: seq<string>)
    requires p.Valid() && iface in p.subs && k <= |p.subs[iface]|
    ensures var r := PublishFrom(p, bound, iface, k, body);
            var to := k + Stop(p.subs[iface][k..], p.ports, bound) + (if r.ok then 0 else 1);
            to <= |p.subs[iface]| && PeerAfter(r.peer, p, iface, k, to, r.out != []) &&
            r.body == if r.out != [] then Blank(|body|) else body
    decreases |p.subs[iface]| - k
  {
    hide Send, SocketID, Decode, PeerAfter, PublishFrom, Blocks;
    PublishOnce(p, bound, iface, k, body);
    if k == |p.subs[iface]| {
      PeerAfterNone(p, iface, k);
      return;
    }
    var receipts := p.subs[iface][k..];
    var s := Send(p, bound, receipts[0], body);
    SendMeaning(p, bound, receipts[0], body);
    SendLeaves(p, bound, receipts[0], body);
    WhenUnroutable(p, bound, receipts[0], body);
    var q := s.peer.(subs := p.subs[iface := p.subs[iface][k := s.header]]);
    if s.outcome == Unroutable {
      assert Stop(receipts, p.ports, bound) == 0;
      PeerAfterNone(q, iface, k + 1);
      PeerAfterMore(p, bound, iface, k, k + 1, body, q, q, false);
    } else {
      PublishLeaves(q, bound, iface, k + 1, s.body);
      assert q.subs[iface][k + 1..] == receipts[1..];
      var rest := PublishFrom(q, bound, iface, k + 1, s.body);
      var to := k + 1 + Stop(receipts[1..], p.ports, bound) + (if rest.ok then 0 else 1);
      PeerAfterMore(p, bound, iface, k, to, body, q, rest.peer, rest.out != []);
    }
  }

  // The recorded subscriptions of an interface; for a topic nobody subscribed to, none.
  function Receipts(p: PeerState, iface: u16): seq<Contents> {
    if iface in p.subs then p.subs[iface] else []
  }

  // Publish, for every index and every network: it throws exactly when some receipt
  // names a local port that is there and a target that is not. The receipts before
  // the first such one are served, in order: one package for each whose local port
  // is there, to the subscriber's socket from the recorded port. Every receipt that
  // is tried, served or not, takes one stamp. A topic nobody subscribed to sends nothing
  // and changes nothing.
  lemma PublishOutcome(p: PeerState, bound: set<string>, header: Contents, body: seq<string>)
    requires p.Valid()
    ensures var r := Publish(p, bound, header, body);
            var receipts := Receipts(p, header.src.iface);
            var n := Stop(receipts, p.ports, bound);
            (r.ok <==> forall j :: 0 <= j < |receipts| ==> !Blocks(receipts[j], p.ports, bound)) &&
            (r.ok <==> n == |receipts|) && AllPublished(r.out, receipts, p, n, body) &&
            r.peer.serial == p.serial + (if r.ok then n else n + 1) && r.peer.counter == r.peer.serial % MOD32
    ensures Receipts(p, header.src.iface) == [] ==>
              var r := Publish(p, bound, header, body);
              r.ok && r.out == [] && r.peer == p && r.body == body
  {
    var i := header.src.iface;
    if i in p.subs {
      hide PublishFrom, SocketID, AllPublished, Blocks;
      PublishLoop(p, bound, i, 0, body);
      PublishEmits(p, bound, i, 0, body);
      assert p.subs[i][0..] == p.subs[i];
      NothingToPublish(p, bound, i, body);
    } else {
      hide SocketID;
      NonePublished([], p, body);
    }
  }

  // What a publish to recorded subscribers leaves behind: exactly the receipts it tried
  // are stamped, the last of them is in the label buffer, and the label's frame and the
  // published frames are used up if anything left.
  lemma PublishAfter(p: PeerState, bound: set<string>, header: Contents, body: seq<string>)
    requires p.Valid() && header.src.iface in p.subs
    ensures var r := Publish(p, bound, header, body);
            var to := Stop(p.subs[header.src.iface], p.ports, bound) + (if r.ok then 0 else 1);
            to <= |p.subs[header.src.iface]| && PeerAfter(r.peer, p, header.src.iface, 0, to, r.out != []) &&
            |r.body| == |body| && forall k :: 0 <= k < |body| ==> r.body[k] == if r.out != [] then "" else body[k]
  {
    hide PublishFrom, SocketID, PeerAfter, Blocks;
    PublishLeaves(p, bound, header.src.iface, 0, body);
    assert p.subs[header.src.iface][0..] == p.subs[header.src.iface];
  }

  lemma NothingToPublish(p: PeerState, bound: set<string>, iface: u16, body: seq<string>)
    requires p.Valid() && iface in p.subs
    ensures p.subs[iface] == [] ==> PublishFrom(p, bound, iface, 0, body) == PublishResult(p, body, [], true)
  {
    PublishOnce(p, bound, iface, 0, body);
  }

  // Every receipt names a port this peer has and a port that can be reached.
  ghost predicate AllReachable(receipts: seq<Contents>, ports: set<u16>, bound: set<string>) {
    forall k :: 0 <= k < |receipts| ==>
      receipts[k].src.port in ports && SocketID(receipts[k].dest.peer, receipts[k].dest.port) in bound
  }

  lemma {:induction false} AllLeave(receipts: seq<Contents>, ports: set<u16>)
    requires forall k :: 0 <= k < |receipts| ==> receipts[k].src.port in ports
    ensures Leaves(receipts, ports) == |receipts|
  {
    if receipts != [] {
      AllLeave(receipts[1..], ports);
    }
  }

  // If every receipt can be served: exactly one package per recorded subscription,
  // in subscription order; the send counter goes up by that number.
  lemma PublishReachesEach(p: PeerState, bound: set<string>, header: Contents, body: seq<string>)
    requires p.Valid()
    requires AllReachable(Receipts(p, header.src.iface), p.ports, bound)
    ensures var r := Publish(p, bound, header, body);
            var receipts := Receipts(p, header.src.iface);
            r.ok && |r.out| == |receipts| &&
            r.peer.serial == p.serial + |receipts| && r.peer.counter == (p.counter + |receipts|) % MOD32 &&
            forall k :: 0 <= k < |receipts| ==> PublishedTo(r.out[k], receipts[k], p, k, k == 0, body)
  {
    hide Publish, SocketID, PublishedTo;
    var receipts := Receipts(p, header.src.iface);
    PublishOutcome(p, bound, header, body);
    CounterAfter(p.serial, |receipts|);
    assert receipts[..|receipts|] == receipts;
    forall k | 0 <= k <= |receipts|
      ensures Leaves(receipts[..k], p.ports) == k
    {
      AllLeave(receipts[..k], p.ports);
    }
  }

  lemma CounterAfter(serial: nat, n: nat)
    ensures (serial % MOD32 + n) % MOD32 == (serial + n) % MOD32
  {
  }

  // A package that carries its label and the published payload.
  predicate Carries(d: Delivery, body: seq<string>) {
    Labelled(d.package) && d.package.frames[2..] == body
  }

  // Of the packages that leave, only the first can carry label and payload, and it does
  // exactly when the label was loaded before the call. It left for receipt j.
  lemma OnlyTheFirstCarries(p: PeerState, bound: set<string>, header: Contents, body: seq<string>, at: nat)
    returns (j: nat)
    requires p.Valid() && at < |Publish(p, bound, header, body).out|
    ensures var d := Publish(p, bound, header, body).out[at];
            var receipts := Receipts(p, header.src.iface);
            j < Stop(receipts, p.ports, bound) && receipts[j].src.port in p.ports &&
            at == Leaves(receipts[..j], p.ports) && PublishedTo(d, receipts[j], p, j, at == 0, body) &&
            (Carries(d, body) <==> at == 0 && p.Loaded())
  {
    hide Publish, SocketID, Decode;
    PublishOutcome(p, bound, header, body);
    var receipts := Receipts(p, header.src.iface);
    var n := Stop(receipts, p.ports, bound);
    j := LeavesAt(receipts[..n], p.ports, at);
    assert receipts[..n][..j] == receipts[..j];
    assert PublishedTo(Publish(p, bound, header, body).out[at], receipts[j], p, j, at == 0, body);
  }

  // What the j-th subscriber was promised: a package for its receipt, which takes the
  // (j+1)-th stamp of the call, with label and payload.
  ghost predicate Served(out: seq<Delivery>, base: nat, j: nat, body: seq<string>) {
    exists at :: 0 <= at < |out| && out[at].serial == base + j + 1 && Carries(out[at], body)
  }

  // The publish call promises its contents to every subscriber. The frames are not
  // rebuilt between two sends, so it keeps that promise exactly when there is no
  // subscriber, or a single one that can be served and the label was loaded before.
  lemma PublishCarriesToAll(p: PeerState, bound: set<string>, header: Contents, body: seq<string>)
    requires p.Valid()
    ensures var out, receipts := Publish(p, bound, header, body).out, Receipts(p, header.src.iface);
            (forall j :: 0 <= j < |receipts| ==> Served(out, p.serial, j, body)) <==>
            |receipts| == 0 || (|receipts| == 1 && p.Loaded() && AllReachable(receipts, p.ports, bound))
  {
    hide Publish, SocketID, Decode, Carries;
    var out, receipts := Publish(p, bound, header, body).out, Receipts(p, header.src.iface);
    forall j | 0 <= j < |receipts| && Served(out, p.serial, j, body)
      ensures p.Loaded() && j < Stop(receipts, p.ports, bound) && receipts[j].src.port in p.ports
      ensures Leaves(receipts[..j], p.ports) == 0
    {
      var at :| 0 <= at < |out| && out[at].serial == p.serial + j + 1 && Carries(out[at], body);
      var i := OnlyTheFirstCarries(p, bound, header, body, at);
    }
    if |receipts| == 1 && Served(out, p.serial, 0, body) {
      assert !Blocks(receipts[0], p.ports, bound) && receipts[0].src.port in p.ports;
    }
    if |receipts| >= 2 && Served(out, p.serial, 0, body) {
      LeavesBehind(receipts, p.ports, 1);
      assert !Served(out, p.serial, 1, body);
    }
    if |receipts| == 1 && p.Loaded() && AllReachable(receipts, p.ports, bound) {
      PublishReachesEach(p, bound, header, body);
      var j := OnlyTheFirstCarries(p, bound, header, body, 0);
      assert Served(out, p.serial, 0, body);
    }
  }

  // The receipt for which the package at that place left.
  lemma {:induction false} LeavesAt(receipts: seq<Contents>, ports: set<u16>, at: nat) returns (j: nat)
    requires at < Leaves(receipts, ports)
    ensures j < |receipts| && receipts[j].src.port in ports && Leaves(receipts[..j], ports) == at
  {
    if receipts[0].src.port in ports && at == 0 {
      j := 0;
      assert receipts[..0] == [];
    } else {
      j := LeavesAt(receipts[1..], ports, at - if receipts[0].src.port in ports then 1 else 0);
      j := j + 1;
      LeavesBehind(receipts, ports, j);
    }
  }

  // ---------- serving and checking

  // What serving a package comes to. Only a Reply interface whose handler passes sends:
  // one send of its return package under the exchanged label, from the port the label
  // calls its destination. A Subscription interface that passes records the exchanged
  // label behind the others. In every other case nothing happens. The label is the one
  // the package leaves in the label buffer, its own or an older one.
  lemma ServeMeaning(p: PeerState, bound: set<string>, package: Package, verdict: Verdict)
    requires p.Valid() && |package.frames| >= 2
    ensures var q := Receive(p, package);
            var label0, r := q.Label(), Serve(p, bound, package, verdict);
            var i := label0.dest.iface;
            var answers := i in p.interfaces && p.interfaces[i] == Reply && verdict.pass;
            var records := i in p.interfaces && p.interfaces[i] == Subscription && verdict.pass;
            r.fate == (if i in p.interfaces then Handled(i, verdict.pass) else UnknownInterface) &&
            (!answers ==>
               r.out == [] && r.outcome == Sent && r.peer.serial == p.serial && r.peer.counter == p.counter) &&
            (!answers && !records ==> r.peer == q) &&
            (records ==> r.peer == q.(subs := r.peer.subs) && Recorded(r.peer.subs, p.subs, label0)) &&
            (answers ==> Answered(q, bound, label0, verdict.reply, r) && r.peer.subs == p.subs)
  {
    hide Send, SocketID, Decode, Receive;
    ReceiveKeeps(p, package);
    var q := Receive(p, package);
    SendMeaning(q, bound, q.Label().Swapped(), verdict.reply);
    SendLeaves(q, bound, q.Label().Swapped(), verdict.reply);
  }

  // The subscription behind a label went to the end of the list of the interface the
  // label was addressed to, with its endpoints exchanged.
  ghost predicate Recorded(now: map<u16, seq<Contents>>, was: map<u16, seq<Contents>>, label0: Contents) {
    var i := label0.dest.iface;
    now.Keys == was.Keys + {i} && (forall j :: j in was && j != i ==> now[j] == was[j]) &&
    now[i] == (if i in was then was[i] else []) + [Contents(label0.messageID, label0.kind, label0.dest, label0.src)]
  }

  // One stamp, and one package back to where the label says it came from, unless the
  // port it says it went to is not there or nobody bound its source.
  ghost predicate Answered(q: PeerState, bound: set<string>, label0: Contents, reply: seq<string>, r: ServeResult) {
    var back := SocketID(label0.src.peer, label0.src.port);
    r.peer.serial == q.serial + 1 && r.peer.counter == (q.counter + 1) % MOD32 &&
    r.outcome == (if label0.dest.port !in q.ports then NoLocalPort else if back !in bound then Unroutable else Sent) &&
    (r.outcome != Sent ==> r.out == []) &&
    (r.outcome == Sent ==>
       |r.out| == 1 && r.out[0].target == back && r.out[0].serial == r.peer.serial &&
       var package := r.out[0].package;
       package.sender == SocketID(q.id, label0.dest.port) &&
       |package.frames| == |reply| + 2 && package.frames[0] == "" && package.frames[2..] == reply &&
       (Labelled(package) <==> q.Loaded()) &&
       (Labelled(package) ==>
          LabelOf(package) ==
          Contents(r.peer.counter, label0.kind, Endpoint(q.id, label0.dest.port, label0.dest.iface), label0.src)))
  }

  // The two checks against a package from port j of peer q: they find nothing exactly
  // when the label's source is that port, and they look at the port before the peer.
  lemma CheckMeaning(header: Contents, q: u16, j: u16)
    ensures Decoded(SocketID(q, j)).Some?
    ensures var check := CheckSource(header, SocketID(q, j));
            (check == Consistent <==> SocketID(header.src.peer, header.src.port) == SocketID(q, j)) &&
            (check == BadPort <==> header.src.port != j) &&
            (check == BadPeer <==> header.src.port == j && header.src.peer != q)
  {
    hide SocketID, Decoded;
    SocketIDDecodes(q, j);
    SocketIDInjective(header.src.peer, header.src.port, q, j);
  }

  // Handler view: a package sent with a loaded label and body frames that fit the
  // receive buffer together leaves the receiver with exactly that label in its
  // label buffer and exactly the bodies, one behind the other, in the buffer.
  lemma HandlerSees(p: PeerState, bound: set<string>, header: Contents, body: seq<string>, q: PeerState,
                    buffer: MessageValue)
    requires p.Valid() && p.Loaded() && q.Valid() && 1 <= |body| <= 7 && |Flat(body)| <= |buffer.data|
    requires Send(p, bound, header, body).outcome == Sent
    ensures var package := Send(p, bound, header, body).out[0].package;
            var was := [MessageValue(q.labelBuf, LABEL_SIZE, 0, q.labelLen), buffer];
            var now := DealtAll(was, package.frames[1..]);
            Receivable(package, [|buffer.data|]) &&
            Receive(q, package).Label() ==
              Contents((p.counter + 1) % MOD32, header.kind,
                       Endpoint(p.id, header.src.port, header.src.iface), header.dest) &&
            now[0].data == Receive(q, package).labelBuf && now[0].frame == Receive(q, package).labelLen &&
            now[1] == Load(buffer, Flat(body))
  {
    hide SocketID, Encode, Decode, Send, Decoded;
    SendMeaning(p, bound, header, body);
    var package := Send(p, bound, header, body).out[0].package;
    SendEmits(p, bound, header, body);
    SocketIDDecodes(p.id, header.src.port);
    ReceiveKeeps(q, package);
    var frames := package.frames[1..];
    assert frames[1..] == body;
    assert frames[2 - 1..] == body;
    JoinedIsFlat(body, |buffer.data|);
  }
}
