/**
 The boundary to libzmq. A context holds, for every bound socket ID, the frames
 waiting there, each with its "more" flag. A ROUTER socket consumes the address
 frame of a message it sends, and the receiver finds the sender's ID in its place
 (ROUTER Socket Type section of ZeroMQ RFC 28/REQREP); messages arrive whole and
 in order. The send reports false where libzmq refuses an unroutable message.
 */
module Wire {
  import opened Words

  datatype Frame = Frame(data: string, more: bool)

  // One multipart message as its receiver sees it.
  datatype Package = Package(sender: string, frames: seq<string>) {
    function Parts(): seq<string> { [sender] + frames }
  }

  // How a send ended: delivered, dropped with a warning, or thrown.
  datatype Outcome = Sent | NoLocalPort | Unroutable

  // Every part but the last says that more follows.
  function Flagged(parts: seq<string>): seq<Frame> {
    seq(|parts|, i requires 0 <= i < |parts| => Frame(parts[i], i < |parts| - 1))
  }

  function Print(packages: seq<Package>): seq<Frame> {
    if packages == [] then [] else Flagged(packages[0].Parts()) + Print(packages[1..])
  }

  // Reading up to the first frame without the flag: the parts read, and the rest.
  function ReadMultipart(frames: seq<Frame>): (r: (seq<string>, seq<Frame>))
    ensures |r.1| <= |frames| && (frames != [] ==> r.0 != [] && |r.1| < |frames|)
  {
    if frames == [] then ([], [])
    else if !frames[0].more then ([frames[0].data], frames[1..])
    else
      var (parts, rest) := ReadMultipart(frames[1..]);
      ([frames[0].data] + parts, rest)
  }

  // Reading whole messages until nothing is left.
  function Parse(frames: seq<Frame>): seq<seq<string>>
    decreases |frames|
  {
    if frames == [] then []
    else
      var (parts, rest) := ReadMultipart(frames);
      [parts] + Parse(rest)
  }

  lemma {:induction false} ReadUndoesFlags(parts: seq<string>, rest: seq<Frame>)
    requires parts != []
    ensures ReadMultipart(Flagged(parts) + rest) == (parts, rest)
  {
    var all := Flagged(parts) + rest;
    if |parts| == 1 {
      assert all[1..] == rest;
      assert parts == [parts[0]];
    } else {
      assert Flagged(parts)[1..] == Flagged(parts[1..]);
      assert all[1..] == Flagged(parts[1..]) + rest;
      ReadUndoesFlags(parts[1..], rest);
      assert parts == [parts[0]] + parts[1..];
    }
  }

  // Reading a stream of printed packages recovers every package, in order.
  lemma {:induction false} ParseUndoesPrint(packages: seq<Package>)
    ensures Parse(Print(packages)) == seq(|packages|, i requires 0 <= i < |packages| => packages[i].Parts())
  {
    if packages != [] {
      ReadUndoesFlags(packages[0].Parts(), Print(packages[1..]));
      ParseUndoesPrint(packages[1..]);
    }
  }

  lemma {:induction false} PrintAppend(packages: seq<Package>, p: Package)
    ensures Print(packages + [p]) == Print(packages) + Flagged(p.Parts())
  {
    if packages == [] {
      assert ([p])[1..] == [];
      assert packages + [p] == [p];
    } else {
      assert (packages + [p])[1..] == packages[1..] + [p];
      PrintAppend(packages[1..], p);
    }
  }

  // A message of which some frames have been handed to libzmq and more are due.
  datatype Partial = Partial(target: string, frames: seq<string>)

  // What waits at each socket, and what each socket is in the middle of sending.
  datatype Sockets = Sockets(packages: map<string, seq<Package>>, partials: map<string, Partial>) {
    ghost predicate Valid() {
      forall id :: id in partials ==> partials[id].target in packages
    }
  }

  // One frame leaves the ROUTER socket `from`; None where it cannot be routed.
  // The first frame names the target; the last one delivers the whole package.
  ghost function SendStep(s: Sockets, from: string, data: string, more: bool): (r: Option<Sockets>)
    requires s.Valid()
    ensures r.Some? ==> r.value.Valid()
    ensures from in s.partials ==> r.Some?
    ensures r.Some? ==> (from in r.value.partials <==> from !in s.partials || more)
  {
    if from !in s.partials then
      if data in s.packages then Some(s.(partials := s.partials[from := Partial(data, [])])) else None
    else
      var p := s.partials[from];
      var frames := p.frames + [data];
      if more then Some(s.(partials := s.partials[from := Partial(p.target, frames)]))
      else Some(Sockets(s.packages[p.target := s.packages[p.target] + [Package(from, frames)]], s.partials - {from}))
  }

  // The frames of one message leave one after the other.
  ghost function SendFrames(s: Sockets, from: string, parts: seq<string>): Option<Sockets>
    requires s.Valid()
    decreases |parts|
  {
    if parts == [] then Some(s)
    else
      match SendStep(s, from, parts[0], |parts| > 1)
      case None => None
      case Some(t) => SendFrames(t, from, parts[1..])
  }

  lemma SendFramesOnce(s: Sockets, from: string, parts: seq<string>)
    requires s.Valid() && parts != []
    ensures SendFrames(s, from, parts) ==
            match SendStep(s, from, parts[0], |parts| > 1)
            case None => None
            case Some(t) => SendFrames(t, from, parts[1..])
  {
  }

  lemma {:induction false} SendRest(s: Sockets, from: string, parts: seq<string>)
    requires s.Valid() && from in s.partials && parts != []
    ensures var p := s.partials[from];
            SendFrames(s, from, parts) ==
            Some(Sockets(s.packages[p.target := s.packages[p.target] + [Package(from, p.frames + parts)]],
                         s.partials - {from}))
    decreases |parts|
  {
    var p := s.partials[from];
    var t := SendStep(s, from, parts[0], |parts| > 1).value;
    if |parts| == 1 {
      assert parts == [parts[0]] && parts[1..] == [];
    } else {
      SendRest(t, from, parts[1..]);
      assert p.frames + [parts[0]] + parts[1..] == p.frames + parts;
      assert t.partials - {from} == s.partials - {from};
    }
  }

  // Sent frame by frame, a message reaches its target as one whole package
  // behind all earlier ones, or nothing happens at all.
  lemma SendWhole(s: Sockets, from: string, target: string, frames: seq<string>)
    requires s.partials == map[] && frames != []
    ensures SendFrames(s, from, [target] + frames) ==
            if target in s.packages
            then Some(Sockets(s.packages[target := s.packages[target] + [Package(from, frames)]], map[]))
            else None
  {
    var parts := [target] + frames;
    assert parts[1..] == frames;
    if target in s.packages {
      var t := SendStep(s, from, target, true).value;
      SendRest(t, from, frames);
      assert [] + frames == frames;
      assert t.partials - {from} == map[];
    }
  }

  class Context {
    var inboxes: map<string, seq<Frame>>
    var partials: map<string, Partial>
    // The packages waiting at each socket.
    ghost var packages: map<string, seq<Package>>

    ghost predicate Valid()
      reads this
      ensures Valid() ==> State().Valid()
    {
      inboxes.Keys == packages.Keys && State().Valid() &&
      (forall id :: id in packages ==> inboxes[id] == Print(packages[id]))
    }

    // No socket is in the middle of a message.
    ghost predicate Idle()
      reads this
    {
      Valid() && partials == map[]
    }

    constructor ()
      ensures Idle() && packages == map[]
    {
      inboxes, partials, packages := map[], map[], map[];
    }

    // False where bind throws because the address is in use.
    method Bind(id: string) returns (ok: bool)
      requires Idle()
      modifies this
      ensures Idle()
      ensures ok == (id !in old(packages))
      ensures packages == if ok then old(packages)[id := []] else old(packages)
    {
      ok := id !in inboxes;
      if ok {
        inboxes := inboxes[id := []];
        packages := packages[id := []];
      }
    }

    ghost function State(): Sockets
      reads this
    {
      Sockets(packages, partials)
    }

    // No frames wait exactly when no package does.
    lemma Nothing(id: string)
      requires Valid() && id in packages
      ensures id in inboxes && (inboxes[id] == [] <==> packages[id] == [])
    {
      assert inboxes[id] == Print(packages[id]);
    }

    // One frame of a multipart message leaving the ROUTER socket `from`.
    method SendFrame(from: string, data: string, more: bool) returns (ok: bool)
      requires Valid()
      modifies this
      ensures Valid()
      ensures var r := SendStep(old(State()), from, data, more);
              ok == r.Some? && State() == if ok then r.value else old(State())
    {
      if from !in partials {
        ok := data in inboxes;
        if ok {
          partials := partials[from := Partial(data, [])];
        }
      } else {
        ok := true;
        var p := partials[from];
        var frames := p.frames + [data];
        if more {
          partials := partials[from := Partial(p.target, frames)];
        } else {
          var package := Package(from, frames);
          PrintAppend(packages[p.target], package);
          inboxes := inboxes[p.target := inboxes[p.target] + Flagged(package.Parts())];
          packages := packages[p.target := packages[p.target] + [package]];
          partials := partials - {from};
        }
      }
    }

    // A package of some other socket reaches an inbox.
    method Arrive(target: string, package: Package)
      requires Idle() && target in packages
      modifies this
      ensures Idle() && packages == old(packages)[target := old(packages[target]) + [package]]
    {
      PrintAppend(packages[target], package);
      inboxes := inboxes[target := inboxes[target] + Flagged(package.Parts())];
      packages := packages[target := packages[target] + [package]];
    }

    // The read loop of Receive takes one multipart message off the socket.
    // With nothing waiting, the non-blocking read returns no parts.
    method ReadParts(id: string) returns (parts: seq<string>)
      requires Idle() && id in packages
      requires packages[id] != [] ==> |packages[id][0].Parts()| <= 10
      modifies this
      ensures Idle()
      ensures old(packages[id]) == [] ==> parts == [] && packages == old(packages)
      ensures old(packages[id]) != [] ==>
                parts == old(packages[id][0].Parts()) && packages == old(packages)[id := old(packages[id][1..])]
      ensures (parts, inboxes[id]) == ReadMultipart(old(inboxes[id]))
    {
      if packages[id] != [] {
        ReadUndoesFlags(packages[id][0].Parts(), Print(packages[id][1..]));
      }
      var rest;
      parts, rest := ReadLoop(inboxes[id]);
      inboxes := inboxes[id := rest];
      if packages[id] != [] {
        packages := packages[id := packages[id][1..]];
      }
    }
  }

  // Frames are taken until one says that no more follow.
  method ReadLoop(stream: seq<Frame>) returns (parts: seq<string>, rest: seq<Frame>)
    requires |ReadMultipart(stream).0| <= 10
    ensures (parts, rest) == ReadMultipart(stream)
  {
    parts, rest := [], stream;
    var more := true;
    assert [] + ReadMultipart(rest).0 == ReadMultipart(rest).0;
    while more && rest != []
      invariant ReadMultipart(stream) ==
                if more then (parts + ReadMultipart(rest).0, ReadMultipart(rest).1) else (parts, rest)
      invariant |parts| <= 10
      decreases |rest|
    {
      more := rest[0].more;
      assert parts + ([rest[0].data] + ReadMultipart(rest[1..]).0)
          == parts + [rest[0].data] + ReadMultipart(rest[1..]).0;
      parts := parts + [rest[0].data];
      rest := rest[1..];
    }
    assert parts + [] == parts;
  }
}
