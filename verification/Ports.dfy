/**
 A port sends packages of message frames and scatters a received package over
 the receiver's buffers.
 */
module Ports {
  import opened Words
  import opened Naming
  import opened Messages
  import opened Wire

  // What a message_t pointer in the send queue refers to.
  datatype Part = Fixed(data: string) | Of(message: Message)

  ghost predicate QueueIn(queue: seq<Part>, wire: map<Message, string>) {
    forall i :: 0 <= i < |queue| && queue[i].Of? ==> queue[i].message in wire
  }

  // What the queue puts on the wire, and what the messages hold afterwards.
  ghost function Drain(queue: seq<Part>, wire: map<Message, string>): (seq<string>, map<Message, string>)
    requires QueueIn(queue, wire)
  {
    if queue == [] then ([], wire)
    else
      match queue[0]
      case Fixed(data) =>
        var (rest, after) := Drain(queue[1..], wire);
        ([data] + rest, after)
      case Of(message) =>
        var (rest, after) := Drain(queue[1..], wire[message := ""]);
        ([wire[message]] + rest, after)
  }

  lemma QueueOnce(queue: seq<Part>, messages: seq<Message>)
    requires AllValid(messages) && QueueIn(queue, Snapshot(messages)) && queue != []
    ensures var wire := Snapshot(messages);
            (queue[0].Of? ==> queue[0].message in messages && queue[0].message in wire) &&
            QueueIn(queue[1..], if queue[0].Of? then wire[queue[0].message := ""] else wire)
  {
  }

  lemma DrainOnce(queue: seq<Part>, wire: map<Message, string>)
    requires QueueIn(queue, wire) && queue != []
    ensures var data := if queue[0].Of? then wire[queue[0].message] else queue[0].data;
            var next := if queue[0].Of? then wire[queue[0].message := ""] else wire;
            var (rest, after) := Drain(queue[1..], next);
            Drain(queue, wire) == ([data] + rest, after) && |rest| == |queue| - 1 && ([data] + rest)[1..] == rest
  {
    DrainLength(queue, wire);
  }

  lemma DrainEnd(wire: map<Message, string>, s: Sockets, from: string)
    requires s.Valid()
    ensures Drain([], wire) == ([], wire) && SendFrames(s, from, []) == Some(s)
  {
  }

  lemma {:induction false} DrainLength(queue: seq<Part>, wire: map<Message, string>)
    requires QueueIn(queue, wire)
    ensures |Drain(queue, wire).0| == |queue|
    decreases |queue|
  {
    if queue != [] {
      DrainLength(queue[1..], if queue[0].Of? then wire[queue[0].message := ""] else wire);
    }
  }

  function PartsOf(messages: seq<Message>): seq<Part> {
    seq(|messages|, i requires 0 <= i < |messages| => Of(messages[i]))
  }

  lemma {:induction false} DrainMessages(messages: seq<Message>, wire: map<Message, string>)
    requires AllIn(messages, wire)
    ensures Drain(PartsOf(messages), wire).0 == Outgoing(messages, wire)
    ensures Drain(PartsOf(messages), wire).1 == map m | m in wire :: if m in messages then "" else wire[m]
    decreases |messages|
  {
    if messages != [] {
      assert PartsOf(messages)[1..] == PartsOf(messages[1..]);
      DrainMessages(messages[1..], wire[messages[0] := ""]);
    }
  }

  // The whole queue of one send: address, delimiter, messages.
  lemma DrainPackage(address: string, messages: seq<Message>, wire: map<Message, string>)
    requires AllIn(messages, wire)
    ensures var queue := [Fixed(address)] + [Fixed("")] + PartsOf(messages);
            Drain(queue, wire) ==
            ([address] + ([""] + Outgoing(messages, wire)), map m | m in wire :: if m in messages then "" else wire[m])
  {
    var queue := [Fixed(address)] + [Fixed("")] + PartsOf(messages);
    assert queue[1..] == [Fixed("")] + PartsOf(messages);
    assert queue[1..][1..] == PartsOf(messages);
    DrainMessages(messages, wire);
  }

  // How a receive ended. Overrun: the next copy would leave the last buffer,
  // which is undefined behaviour in C++.
  datatype Received =
    | NothingWaiting
    | Incomplete
    | Malformed(portName: string)
    | Accepted(portName: string)
    | Overrun

  // How receiving a package into k messages ends, with the last one's capacity.
  predicate Ending(r: Received, p: Package, k: nat, capacity: nat)
    requires k > 0
  {
    if |p.frames| < 2 then r == Incomplete
    else if p.frames[0] != "" then r == Malformed(PortNameFromSocketID(p.sender))
    else if Fits(p.frames[1..], k, capacity) then r == Accepted(PortNameFromSocketID(p.sender))
    else r == Overrun
  }

  // A package that a port sent is accepted under that port's name if it has a frame and
  // its frames fit; without a frame it counts as incomplete, and it is never malformed.
  lemma EndingOfSent(r: Received, portName: string, frames: seq<string>, k: nat, capacity: nat)
    requires '/' !in portName && k > 0
    requires Ending(r, Package(PortNameToSocketID(portName, Inproc), [""] + frames), k, capacity)
    ensures r == if frames == [] then Incomplete
                 else if Fits(frames, k, capacity) then Accepted(portName) else Overrun
  {
    hide PortNameFromSocketID, PortNameToSocketID, Fits;
    SocketIDRoundTrip(portName);
    assert ([""] + frames)[1..] == frames;
  }

  // ---------- the meaning of scatter/gather

  function Cut(frame: string, capacity: nat): (r: string)
    ensures |r| <= capacity && r <= frame
  {
    if |frame| > capacity then frame[..capacity] else frame
  }

  function Joined(frames: seq<string>, capacity: nat): string {
    if frames == [] then [] else Cut(frames[0], capacity) + Joined(frames[1..], capacity)
  }

  // What message i of k is given: its own frame, or for the last message every
  // remaining frame, each cut to the capacity, in order.
  function Share(frames: seq<string>, i: nat, k: nat, capacity: nat): string
    requires i < k && i < |frames|
  {
    if i < k - 1 then Cut(frames[i], capacity) else Joined(frames[k - 1..], capacity)
  }

  lemma JoinedOnce(frames: seq<string>, capacity: nat)
    requires frames != []
    ensures Joined(frames, capacity) == Cut(frames[0], capacity) + Joined(frames[1..], capacity)
  {
  }

  // The next frame goes behind what was joined so far.
  lemma JoinedBehind(a: string, frames: seq<string>, capacity: nat)
    requires frames != []
    ensures a + Joined(frames, capacity) == (a + Cut(frames[0], capacity)) + Joined(frames[1..], capacity)
  {
    hide Cut;
    JoinedOnce(frames, capacity);
  }

  // A copy behind the first bytes of a buffer leaves the rest of it alone.
  lemma CopiedBehind(was: string, a: string, b: string, data: string)
    requires |a| + |b| <= |data| && was == a + data[|a|..]
    ensures was[..|a|] + b + was[|a| + |b|..] == (a + b) + data[|a + b|..]
  {
  }

  lemma JoinedEnd(capacity: nat)
    ensures Joined([], capacity) == []
  {
  }

  // Message i after the frames have been dealt out.
  function Dealt(before: MessageValue, frames: seq<string>, i: nat, k: nat): MessageValue
    requires i < k
  {
    if i < |frames| && |Share(frames, i, k, |before.data|)| <= |before.data|
    then Load(before, Share(frames, i, k, |before.data|))
    else before
  }

  // The copies into the last of k messages stay inside its buffer.
  predicate Fits(frames: seq<string>, k: nat, capacity: nat)
    requires k > 0
  {
    |frames| < k || |Joined(frames[k - 1..], capacity)| <= capacity
  }

  // Frames that fit together are not cut: the last message holds their plain
  // concatenation, unless it received a single frame too large for it.
  function Flat(frames: seq<string>): string {
    if frames == [] then [] else frames[0] + Flat(frames[1..])
  }

  lemma {:induction false} JoinedIsFlat(frames: seq<string>, capacity: nat)
    ensures |Flat(frames)| <= capacity ==> Joined(frames, capacity) == Flat(frames)
    ensures (forall f :: f in frames ==> |f| <= capacity) ==> Joined(frames, capacity) == Flat(frames)
  {
    if frames != [] {
      JoinedIsFlat(frames[1..], capacity);
    }
  }

  // The outcome in plain terms. A message before the last holds its own frame up
  // to its capacity, the last holds all remaining frames one behind the other,
  // and a message without a frame is as it was.
  lemma ScatterMeaning(before: seq<MessageValue>, frames: seq<string>, i: nat)
    requires i < |before| && Fits(frames, |before|, |before[|before| - 1].data|)
    ensures var now := DealtAll(before, frames)[i];
            var capacity := |before[i].data|;
            |now.data| == capacity &&
            (i >= |frames| ==> now == before[i]) &&
            (i < |frames| ==> now.size == now.frame && now.offset == 0 &&
                              now.data[now.size..] == before[i].data[now.size..]) &&
            (i < |frames| && i < |before| - 1 ==>
               now.data[..now.size] == if |frames[i]| <= capacity then frames[i] else frames[i][..capacity]) &&
            (i < |frames| && i == |before| - 1 && (forall f :: f in frames[i..] ==> |f| <= capacity) ==>
               now.data[..now.size] == Flat(frames[i..])) &&
            (i == |frames| - 1 == |before| - 1 && |frames[i]| > capacity ==>
               now.data[..now.size] == frames[i][..capacity])
  {
    if i < |frames| {
      JoinedIsFlat(frames[i..], |before[i].data|);
      if i == |frames| - 1 == |before| - 1 {
        assert frames[i..] == [frames[i]] && frames[i..][1..] == [];
        assert Joined(frames[i..], |before[i].data|) == Cut(frames[i], |before[i].data|) + [];
      }
    }
  }

  // A message holds its share of the frames, i-th of k messages, and nothing else.
  predicate HoldsShare(now: MessageValue, frames: seq<string>, i: nat, k: nat)
    requires i < k && i < |frames|
  {
    var share := Share(frames, i, k, |now.data|);
    now.size == now.frame == |share| <= |now.data| && now.offset == 0 && now.data[..now.size] == share
  }

  // The messages behind the label message, after the frames have been dealt out.
  function DealtBodies(before: seq<MessageValue>, frames: seq<string>): seq<MessageValue> {
    seq(|before|, i requires 0 <= i < |before| => Dealt(before[i], frames, i + 1, |before| + 1))
  }

  lemma DealtBehindLabel(header: MessageValue, before: seq<MessageValue>, frames: seq<string>)
    ensures DealtAll([header] + before, frames)[1..] == DealtBodies(before, frames)
  {
    hide Dealt;
  }

  // With the first frame gone to the label message, the others share out the rest.
  lemma BodyShare(before: seq<MessageValue>, frames: seq<string>, i: nat)
    requires frames != [] && i < |before| && Fits(frames, |before| + 1, |before[|before| - 1].data|)
    ensures var now := DealtBodies(before, frames)[i];
            |now.data| == |before[i].data| &&
            if i < |frames| - 1 then HoldsShare(now, frames[1..], i, |before|) else now == before[i]
  {
    hide Joined;
    if i < |frames| - 1 {
      assert frames[1..][i] == frames[i + 1];
      if i == |before| - 1 {
        assert frames[1..][i..] == frames[i + 1..];
      }
    }
  }

  // The copy loop on values: the message now filled, and how far. None where a
  // copy would leave its buffer.
  ghost function Deal(values: seq<MessageValue>, frames: seq<string>, idx: nat, at: nat): Option<seq<MessageValue>>
    requires idx < |values| && at <= |values[idx].data|
    decreases |frames|
  {
    if frames == [] then Some(values)
    else
      var v := values[idx];
      var cut := Cut(frames[0], |v.data|);
      if at + |cut| > |v.data| then None
      else
        var next := values[idx := Load(v, v.data[..at] + cut)];
        if idx < |values| - 1 then Deal(next, frames[1..], idx + 1, 0)
        else Deal(next, frames[1..], idx, at + |cut|)
  }

  lemma DealOnce(values: seq<MessageValue>, frames: seq<string>, idx: nat, at: nat)
    requires idx < |values| && at <= |values[idx].data| && frames != []
    ensures var v := values[idx];
            var cut := Cut(frames[0], |v.data|);
            if at + |cut| > |v.data| then Deal(values, frames, idx, at) == None
            else
              var next := values[idx := Load(v, v.data[..at] + cut)];
              |v.data[..at] + cut| == at + |cut| && |next[idx].data| == |v.data| &&
              Deal(values, frames, idx, at) ==
              if idx < |values| - 1 then Deal(next, frames[1..], idx + 1, 0)
              else Deal(next, frames[1..], idx, at + |cut|)
  {
  }

  lemma DealEnd(values: seq<MessageValue>, idx: nat, at: nat)
    requires idx < |values| && at <= |values[idx].data|
    ensures Deal(values, [], idx, at) == Some(values)
  {
  }

  class Port {
    const portName: string
    const transport: Transport
    const ctx: Context

    // The port's socket is bound.
    ghost predicate Valid()
      reads ctx
    {
      transport.Inproc? && ctx.Idle() && Socket() in ctx.packages
    }

    function Socket(): string
      requires transport.Inproc?
    {
      PortNameToSocketID(portName, transport)
    }

    // Requires a free address: the callers handle the throw of bind.
    constructor (portName: string, transport: Transport, ctx: Context)
      requires transport.Inproc? && ctx.Idle()
      requires PortNameToSocketID(portName, transport) !in ctx.packages
      modifies ctx
      ensures Valid() && this.portName == portName && this.transport == transport && this.ctx == ctx
      ensures ctx.packages == old(ctx.packages)[Socket() := []]
    {
      this.portName, this.transport, this.ctx := portName, transport, ctx;
      new;
      var _ := ctx.Bind(PortNameToSocketID(portName, transport));
    }

    // One frame goes to libzmq, which empties it if it takes it.
    method SendPart(part: Part, more: bool, ghost messages: seq<Message>) returns (ok: bool)
      requires transport.Inproc? && ctx.Valid() && AllValid(messages)
      requires part.Of? ==> part.message in messages
      modifies ctx, messages`frame
      ensures ctx.Valid() && AllValid(messages)
      ensures var data := if part.Of? then old(Snapshot(messages))[part.message] else part.data;
              var r := SendStep(old(ctx.State()), Socket(), data, more);
              ok == r.Some? && ctx.State() == if ok then r.value else old(ctx.State())
      ensures Snapshot(messages) ==
              if ok && part.Of? then old(Snapshot(messages))[part.message := ""] else old(Snapshot(messages))
    {
      hide SendStep, Snapshot, AllValid;
      match part
      case Fixed(data) =>
        ok := SendBytes(data, more, messages);
      case Of(message) =>
        SnapshotAt(messages, message);
        ok := SendBytes(message.buffer[..message.frame], more, messages);
        if ok {
          Empty(message, messages);
        }
    }

    // The socket takes bytes without touching any message.
    method SendBytes(data: string, more: bool, ghost messages: seq<Message>) returns (ok: bool)
      requires transport.Inproc? && ctx.Valid() && AllValid(messages)
      modifies ctx
      ensures ctx.Valid() && AllValid(messages) && Snapshot(messages) == old(Snapshot(messages))
      ensures var r := SendStep(old(ctx.State()), Socket(), data, more);
              ok == r.Some? && ctx.State() == if ok then r.value else old(ctx.State())
    {
      hide SendStep;
      ok := ctx.SendFrame(Socket(), data, more);
    }

    static method Empty(message: Message, ghost messages: seq<Message>)
      requires AllValid(messages) && message in messages
      modifies messages`frame
      ensures AllValid(messages) && Snapshot(messages) == old(Snapshot(messages))[message := ""]
    {
      message.Unload();
    }

    // Hands the queue to libzmq frame by frame. False where the send throws.
    method SendData(parts: seq<Part>, ghost messages: seq<Message>) returns (ok: bool)
      requires transport.Inproc? && ctx.Valid() && Socket() !in ctx.partials
      requires AllValid(messages) && QueueIn(parts, Snapshot(messages)) && parts != [] && parts[0].Fixed?
      modifies ctx, messages`frame
      ensures ctx.Valid() && AllValid(messages)
      ensures var (data, after) := Drain(parts, old(Snapshot(messages)));
              var r := SendFrames(old(ctx.State()), Socket(), data);
              ok == r.Some? &&
              ctx.State() == (if ok then r.value else old(ctx.State())) &&
              Snapshot(messages) == if ok then after else old(Snapshot(messages))
    {
      hide SendFrames, SendStep, Drain, QueueIn, Snapshot, AllValid;
      ghost var was, wire := ctx.State(), Snapshot(messages);
      ghost var (data, after) := Drain(parts, wire);
      var queue := parts;
      ok := true;
      while queue != []
        invariant ctx.Valid() && AllValid(messages) && QueueIn(queue, Snapshot(messages)) && ok
        invariant SendFrames(was, Socket(), data) ==
                  SendFrames(ctx.State(), Socket(), Drain(queue, Snapshot(messages)).0)
        invariant after == Drain(queue, Snapshot(messages)).1
        invariant queue == parts || queue == [] || Socket() in ctx.partials
        invariant queue == parts ==> ctx.State() == was && Snapshot(messages) == wire
        decreases |queue|
      {
        var part := queue[0];
        QueueOnce(queue, messages);
        DrainOnce(queue, Snapshot(messages));
        SendFramesOnce(ctx.State(), Socket(), Drain(queue, Snapshot(messages)).0);
        queue := queue[1..];
        ok := SendPart(part, queue != [], messages);
        if !ok {
          break;
        }
      }
      DrainEnd(Snapshot(messages), ctx.State(), Socket());
    }

    // Sends the frames of the messages, empties them, and reports false where
    // the target is not routable and the call throws.
    method Send(portName: string, messages: seq<Message>) returns (ok: bool)
      requires Valid() && AllValid(messages)
      modifies ctx, messages`frame
      ensures Valid() && AllValid(messages)
      ensures ok == (PortNameToSocketID(portName, transport) in old(ctx.packages))
      ensures ctx.packages ==
              if ok then
                var target := PortNameToSocketID(portName, transport);
                old(ctx.packages)[target := old(ctx.packages[target]) +
                                  [Package(Socket(), [""] + old(Frames(messages)))]]
              else old(ctx.packages)
      ensures ok ==> AllUnloaded(messages)
      ensures !ok ==> Snapshot(messages) == old(Snapshot(messages))
    {
      hide SendFrames, SendStep, Drain, Outgoing;
      var address := PortNameToSocketID(portName, transport);
      ghost var wire := Snapshot(messages);
      var parts := LoadMultipart([Fixed(address)], messages);
      assert wire == Snapshot(messages);
      DrainPackage(address, messages, wire);
      SendWhole(ctx.State(), Socket(), address, [""] + Outgoing(messages, wire));
      ok := SendData(parts, messages);
      if ok {
        forall i | 0 <= i < |messages|
          ensures messages[i].frame == 0
        {
          assert Snapshot(messages)[messages[i]] == "";
        }
      }
    }

    method LoadMultipart(parts: seq<Part>, messages: seq<Message>) returns (r: seq<Part>)
      ensures r == parts + [Fixed("")] + PartsOf(messages)
    {
      r := parts + [Fixed("")];
      for i := 0 to |messages|
        invariant r == parts + [Fixed("")] + PartsOf(messages)[..i]
      {
        r := r + [Of(messages[i])];
      }
    }

    // The single-message overload of Send.
    method SendOne(portName: string, message: Message) returns (ok: bool)
      requires Valid() && message.Valid()
      modifies ctx, message`frame
      ensures Valid() && message.Valid()
      ensures ok == (PortNameToSocketID(portName, transport) in old(ctx.packages))
      ensures ctx.packages ==
              if ok then
                var target := PortNameToSocketID(portName, transport);
                old(ctx.packages)[target := old(ctx.packages[target]) +
                                  [Package(Socket(), ["", old(message.Contents())])]]
              else old(ctx.packages)
      ensures message.frame == if ok then 0 else old(message.frame)
    {
      var frame := message.buffer[..message.frame];
      assert Outgoing([message], Snapshot([message])) == [frame] by {
        OutgoingAt([message], Snapshot([message]), 0);
      }
      assert [""] + [frame] == ["", frame];
      ok := Send(portName, [message]);
      assert [message][0].frame == 0 || !ok;
      if !ok {
        SnapshotAt([message], message);
      }
    }

    // The single-message overload of Receive: it resizes once, at the end, and
    // still leaves what the vector overload leaves in a list of one.
    method ReceiveOne(message: Message, dontwait: bool) returns (r: Received)
      requires Valid() && message.Valid() && message.offset == 0
      requires dontwait || ctx.packages[Socket()] != []
      requires ctx.packages[Socket()] != [] ==> |ctx.packages[Socket()][0].Parts()| <= 10
      modifies ctx, message, message.buffer
      ensures Valid()
      ensures r.NothingWaiting? <==> old(ctx.packages[Socket()]) == []
      ensures old(ctx.packages[Socket()]) == [] ==> ctx.packages == old(ctx.packages)
      ensures old(ctx.packages[Socket()]) != [] ==>
                ctx.packages == old(ctx.packages)[Socket() := old(ctx.packages[Socket()][1..])] &&
                Ending(r, old(ctx.packages[Socket()][0]), 1, message.capacity)
      ensures r.Accepted? ==>
                message.Valid() &&
                [message.Value()] == DealtAll([old(message.Value())], old(ctx.packages[Socket()][0].frames[1..]))
      ensures !r.Accepted? && !r.Overrun? ==> message.Valid() && message.Value() == old(message.Value())
    {
      hide DealtAll, Fits, Print, ReadMultipart, PortNameFromSocketID;
      ctx.Nothing(Socket());
      if ctx.inboxes[Socket()] == [] {
        return NothingWaiting;
      }
      ghost var package := ctx.packages[Socket()][0];
      var parts := ctx.ReadParts(Socket());
      if |parts| < 3 {
        return Incomplete;
      }
      var portName := PortNameFromSocketID(parts[0]);
      if parts[1] != "" {
        return Malformed(portName);
      }
      assert parts[2..] == package.frames[1..];
      var fits := Gather(parts[2..], message);
      FitsOne(parts[2..], message.capacity);
      r := if fits then Accepted(portName) else Overrun;
    }

    // The single-message overload copies all frames and then resizes once.
    static method Gather(frames: seq<string>, message: Message) returns (fits: bool)
      requires message.Valid() && message.offset == 0 && frames != []
      modifies message, message.buffer
      ensures fits <==> |Joined(frames, message.capacity)| <= message.capacity
      ensures fits ==> message.Valid() && [message.Value()] == DealtAll([old(message.Value())], frames)
    {
      hide Joined, DealtAll, Load;
      ghost var before := message.Value();
      var bufferOffset;
      fits, bufferOffset := CopyFrames(frames, message.buffer);
      if fits {
        message.Resize(bufferOffset, 0);
        DealtOne(before, frames);
        LoadIs(before, Joined(frames, message.capacity));
      }
    }

    // The copy loop of the single-message overload, which puts the frames one behind the
    // other. False when a copy would leave the buffer.
    static method CopyFrames(frames: seq<string>, buffer: array<char>) returns (fits: bool, bufferOffset: nat)
      modifies buffer
      ensures var all := Joined(frames, buffer.Length);
              (fits <==> |all| <= buffer.Length) &&
              (fits ==> bufferOffset == |all| && buffer[..] == all + old(buffer[|all|..]))
    {
      hide Joined;
      ghost var data, a := buffer[..], "";
      assert a + Joined(frames, buffer.Length) == Joined(frames, buffer.Length);
      var queue := frames;
      bufferOffset := 0;
      while queue != []
        invariant bufferOffset == |a| <= buffer.Length
        invariant a + Joined(queue, buffer.Length) == Joined(frames, buffer.Length)
        invariant buffer[..] == a + data[|a|..]
        decreases |queue|
      {
        var frame := queue[0];
        var cpySize := if |frame| > buffer.Length then buffer.Length else |frame|;
        ghost var was, cut := buffer[..], Cut(frame, buffer.Length);
        assert frame[..cpySize] == cut;
        JoinedBehind(a, queue, buffer.Length);
        if bufferOffset + cpySize > buffer.Length {
          return false, bufferOffset;
        }
        Copy(buffer, bufferOffset, frame, cpySize);
        CopiedBehind(was, a, cut, data);
        a := a + cut;
        queue := queue[1..];
        bufferOffset := bufferOffset + cpySize;
      }
      JoinedEnd(buffer.Length);
      assert a + [] == a;
      fits := true;
    }

    // The vector overload of Receive. With nothing waiting it returns only if it was
    // told not to wait.
    method Receive(messages: seq<Message>, dontwait: bool) returns (r: Received)
      requires Valid() && AllValid(messages) && Separate(messages) && messages != []
      requires dontwait || ctx.packages[Socket()] != []
      requires AllAtZero(messages)
      requires ctx.packages[Socket()] != [] ==> |ctx.packages[Socket()][0].Parts()| <= 10
      modifies ctx, messages, Buffers(messages)
      ensures Valid()
      ensures r.NothingWaiting? <==> old(ctx.packages[Socket()]) == []
      ensures old(ctx.packages[Socket()]) == [] ==> ctx.packages == old(ctx.packages)
      ensures old(ctx.packages[Socket()]) != [] ==>
                ctx.packages == old(ctx.packages)[Socket() := old(ctx.packages[Socket()][1..])] &&
                Ending(r, old(ctx.packages[Socket()][0]), |messages|, messages[|messages| - 1].capacity)
      ensures r.Accepted? ==>
                AllValid(messages) &&
                Values(messages) == DealtAll(old(Values(messages)), old(ctx.packages[Socket()][0].frames[1..]))
      ensures !r.Accepted? && !r.Overrun? ==>
                AllValid(messages) && Values(messages) == old(Values(messages))
    {
      hide DealtAll, Fits, Print, ReadMultipart, PortNameFromSocketID;
      ctx.Nothing(Socket());
      if ctx.inboxes[Socket()] == [] {
        return NothingWaiting;
      }
      var parts := ctx.ReadParts(Socket());
      if |parts| < 3 {
        return Incomplete;
      }
      var portName := PortNameFromSocketID(parts[0]);
      if parts[1] != "" {
        return Malformed(portName);
      }
      var fits := Scatter(parts[2..], messages);
      assert parts[2..] == old(ctx.packages[Socket()][0].frames[1..]);
      r := if fits then Accepted(portName) else Overrun;
    }

    // The copy loop of the vector overload. False when a copy would leave its buffer.
    method Scatter(frames: seq<string>, messages: seq<Message>) returns (fits: bool)
      requires AllValid(messages) && Separate(messages) && messages != [] && AllAtZero(messages)
      modifies messages, Buffers(messages)
      ensures fits <==> Fits(frames, |messages|, messages[|messages| - 1].capacity)
      ensures fits ==> AllValid(messages) && Values(messages) == DealtAll(old(Values(messages)), frames)
    {
      hide Deal, DealtAll, Fits, Joined, Load, Values;
      ghost var before := Values(messages);
      ValuesShape(messages);
      var queue := frames;
      var bufferOffset := 0;
      var messageIdx := 0;
      DealIsDealt(before, frames);
      while queue != []
        invariant AllValid(messages) && AllAtZero(messages)
        invariant messageIdx < |messages| && bufferOffset <= messages[messageIdx].capacity
        invariant |Values(messages)| == |messages|
        invariant forall i :: 0 <= i < |messages| ==> |Values(messages)[i].data| == messages[i].capacity
        invariant Deal(before, frames, 0, 0) == Deal(Values(messages), queue, messageIdx, bufferOffset)
        decreases |queue|
      {
        var message := messages[messageIdx];
        var frame := queue[0];
        var cpySize := if |frame| > message.capacity then message.capacity else |frame|;
        if bufferOffset + cpySize > message.capacity {
          DealOnce(Values(messages), queue, messageIdx, bufferOffset);
          return false;
        }
        assert frame[..cpySize] == Cut(frame, message.capacity);
        DealOnce(Values(messages), queue, messageIdx, bufferOffset);
        Place(messages, messageIdx, bufferOffset, frame, cpySize);
        ValuesShape(messages);
        queue := queue[1..];
        bufferOffset := bufferOffset + cpySize;
        if messageIdx < |messages| - 1 {
          messageIdx := messageIdx + 1;
          bufferOffset := 0;
        }
      }
      DealEnd(Values(messages), messageIdx, bufferOffset);
      fits := true;
    }

    // Copies n bytes of a frame behind the first `at` bytes of one message and
    // builds that message's frame anew; the other messages keep their values.
    static method Place(messages: seq<Message>, idx: nat, at: nat, frame: string, n: nat)
      requires AllValid(messages) && Separate(messages) && idx < |messages|
      requires AllAtZero(messages)
      requires n <= |frame| && at + n <= messages[idx].capacity
      modifies messages[idx], messages[idx].buffer
      ensures AllValid(messages) && AllAtZero(messages)
      ensures Values(messages) ==
              var was := old(Values(messages));
              was[idx := Load(was[idx], was[idx].data[..at] + frame[..n])]
    {
      ghost var was := Values(messages);
      var message := messages[idx];
      Copy(message.buffer, at, frame, n);
      message.Resize(at + n, 0);
      assert message.buffer[..] == was[idx].data[..at] + frame[..n] + was[idx].data[at + n..];
      assert message.Value() == Load(was[idx], was[idx].data[..at] + frame[..n]);
      forall i | 0 <= i < |messages| && i != idx
        ensures messages[i].Valid() && messages[i].offset == 0 && messages[i].Value() == was[i]
      {
        assert messages[i] != message && messages[i].buffer != message.buffer;
      }
    }
  }

  // ---------- one turn of the copy loop

  // In the last message the frames go one behind the other.
  lemma {:induction false} DealLast(values: seq<MessageValue>, v: MessageValue, a: string, frames: seq<string>)
    requires values != [] && |a| <= |v.data| && values[|values| - 1] == Load(v, a)
    ensures Deal(values, frames, |values| - 1, |a|) ==
            if |a| + |Joined(frames, |v.data|)| > |v.data| then None
            else Some(values[|values| - 1 := Load(v, a + Joined(frames, |v.data|))])
    decreases |frames|
  {
    var idx := |values| - 1;
    LoadMore(v, a, []);
    if frames == [] {
      assert a + [] == a;
      assert values == values[idx := Load(v, a)];
    } else {
      var cut := Cut(frames[0], |v.data|);
      if |a| + |cut| <= |v.data| {
        LoadMore(v, a, cut);
        var next := values[idx := Load(v, a + cut)];
        DealLast(next, v, a + cut, frames[1..]);
        if |a + cut| + |Joined(frames[1..], |v.data|)| <= |v.data| {
          UpdateTwice(values, idx, Load(v, a + cut), Load(v, a + cut + Joined(frames[1..], |v.data|)));
        }
        assert a + cut + Joined(frames[1..], |v.data|) == a + Joined(frames, |v.data|);
      }
    }
  }

  // A frame for the last message, which so far holds nothing of this package.
  lemma DealIntoLast(values: seq<MessageValue>, frames: seq<string>)
    requires values != [] && frames != []
    ensures var v := values[|values| - 1];
            Deal(values, frames, |values| - 1, 0) ==
            if |Joined(frames, |v.data|)| > |v.data| then None
            else Some(values[|values| - 1 := Load(v, Joined(frames, |v.data|))])
  {
    hide Deal, Load;
    var idx := |values| - 1;
    var v := values[idx];
    var cut := Cut(frames[0], |v.data|);
    DealOnce(values, frames, idx, 0);
    assert v.data[..0] + cut == cut;
    DealLast(values[idx := Load(v, cut)], v, cut, frames[1..]);
    if |Joined(frames, |v.data|)| <= |v.data| {
      UpdateTwice(values, idx, Load(v, cut), Load(v, Joined(frames, |v.data|)));
    }
  }

  lemma UpdateTwice<T>(s: seq<T>, i: nat, a: T, b: T)
    requires i < |s|
    ensures s[i := a][i := b] == s[i := b]
  {
  }

  // From message idx on, the loop gives each message its share.
  lemma {:induction false} DealRest(values: seq<MessageValue>, frames: seq<string>, idx: nat)
    requires idx < |values|
    ensures Deal(values, frames, idx, 0) ==
            if Fits(frames, |values| - idx, |values[|values| - 1].data|)
            then Some(values[..idx] + DealtAll(values[idx..], frames)) else None
    decreases |frames|
  {
    hide Deal, DealtAll, Joined, Fits, Load;
    if frames == [] {
      DealEnd(values, idx, 0);
      DealtNone(values[idx..]);
      assert values == values[..idx] + values[idx..];
    } else if idx == |values| - 1 {
      DealAtLast(values, frames);
    } else {
      var v := values[idx];
      var next := values[idx := Load(v, Cut(frames[0], |v.data|))];
      DealOnce(values, frames, idx, 0);
      assert v.data[..0] + Cut(frames[0], |v.data|) == Cut(frames[0], |v.data|);
      assert next[|values| - 1] == values[|values| - 1];
      DealRest(next, frames[1..], idx + 1);
      FitsTail(frames, |values| - idx, |values[|values| - 1].data|);
      DealtBehind(values, frames, idx);
    }
  }

  lemma DealAtLast(values: seq<MessageValue>, frames: seq<string>)
    requires values != [] && frames != []
    ensures var idx := |values| - 1;
            Deal(values, frames, idx, 0) ==
            if Fits(frames, 1, |values[idx].data|)
            then Some(values[..idx] + DealtAll(values[idx..], frames)) else None
  {
    hide Deal, DealtAll, Joined, Fits, Load;
    var idx := |values| - 1;
    var v := values[idx];
    DealIntoLast(values, frames);
    FitsOne(frames, |v.data|);
    if |Joined(frames, |v.data|)| <= |v.data| {
      DealtOne(v, frames);
      assert values[idx..] == [v];
      assert values[idx := Load(v, Joined(frames, |v.data|))] == values[..idx] + [Load(v, Joined(frames, |v.data|))];
    }
  }

  lemma DealtBehind(values: seq<MessageValue>, frames: seq<string>, idx: nat)
    requires idx < |values| - 1 && frames != []
    ensures var v := values[idx];
            var next := values[idx := Load(v, Cut(frames[0], |v.data|))];
            next[..idx + 1] + DealtAll(next[idx + 1..], frames[1..]) == values[..idx] + DealtAll(values[idx..], frames)
  {
    hide DealtAll, Load;
    var v := values[idx];
    var loaded := Load(v, Cut(frames[0], |v.data|));
    var next := values[idx := loaded];
    DealtShift(values[idx..], frames);
    var rest := DealtAll(values[idx + 1..], frames[1..]);
    assert next[idx + 1..] == values[idx + 1..] == values[idx..][1..];
    assert next[..idx + 1] + rest == values[..idx] + ([loaded] + rest);
  }

  lemma DealtNone(values: seq<MessageValue>)
    ensures DealtAll(values, []) == values
    ensures forall k, capacity: nat :: k > 0 ==> Fits([], k, capacity)
  {
  }

  lemma DealtOne(v: MessageValue, frames: seq<string>)
    requires frames != []
    requires |Joined(frames, |v.data|)| <= |v.data|
    ensures DealtAll([v], frames) == [Load(v, Joined(frames, |v.data|))]
  {
    assert frames[0..] == frames;
  }

  lemma FitsOne(frames: seq<string>, capacity: nat)
    requires frames != []
    ensures Fits(frames, 1, capacity) <==> |Joined(frames, capacity)| <= capacity
  {
    assert frames[0..] == frames;
  }

  lemma FitsTail(frames: seq<string>, k: nat, capacity: nat)
    requires k > 1 && frames != []
    ensures Fits(frames, k, capacity) <==> Fits(frames[1..], k - 1, capacity)
  {
    if |frames| >= k {
      assert frames[1..][k - 2..] == frames[k - 1..];
    }
  }

  lemma DealtShift(values: seq<MessageValue>, frames: seq<string>)
    requires |values| > 1 && frames != []
    ensures DealtAll(values, frames) ==
            [Load(values[0], Cut(frames[0], |values[0].data|))] + DealtAll(values[1..], frames[1..])
  {
    hide Joined, Load;
    var k := |values|;
    forall i | 1 <= i < k
      ensures Dealt(values[i], frames, i, k) == Dealt(values[1..][i - 1], frames[1..], i - 1, k - 1)
    {
      DealtShiftAt(values[i], frames, i, k);
    }
  }

  lemma DealtShiftAt(v: MessageValue, frames: seq<string>, i: nat, k: nat)
    requires 1 <= i < k && frames != []
    ensures Dealt(v, frames, i, k) == Dealt(v, frames[1..], i - 1, k - 1)
  {
    if i == k - 1 && i < |frames| {
      assert frames[1..][k - 2..] == frames[k - 1..];
    }
  }

  // The loop does exactly what the declarative form says.
  lemma DealIsDealt(values: seq<MessageValue>, frames: seq<string>)
    requires values != []
    ensures Deal(values, frames, 0, 0) ==
            if Fits(frames, |values|, |values[|values| - 1].data|) then Some(DealtAll(values, frames)) else None
  {
    DealRest(values, frames, 0);
    assert values[0..] == values;
    assert values[..0] + DealtAll(values, frames) == DealtAll(values, frames);
  }

  function DealtAll(before: seq<MessageValue>, frames: seq<string>): seq<MessageValue> {
    seq(|before|, i requires 0 <= i < |before| => Dealt(before[i], frames, i, |before|))
  }
}
