/**
 A message is a fixed buffer with a size, an offset, and a libzmq frame laid
 over the start of the buffer without a copy. The frame is what a send puts on
 the wire; resize builds it and libzmq empties it when it is sent.
 */
module Messages {
  import opened Words

  // The abstract value of a message: frame is the length of its libzmq frame.
  datatype MessageValue = MessageValue(data: string, size: nat, offset: nat, frame: nat)

  // A message whose frame was just built over the given contents.
  function Load(before: MessageValue, contents: string): MessageValue
    requires |contents| <= |before.data|
  {
    MessageValue(contents + before.data[|contents|..], |contents|, 0, |contents|)
  }

  lemma LoadIs(v: MessageValue, a: string)
    requires |a| <= |v.data|
    ensures Load(v, a) == MessageValue(a + v.data[|a|..], |a|, 0, |a|)
  {
  }

  // Loading more behind what was loaded is one load of both.
  lemma LoadMore(v: MessageValue, a: string, b: string)
    requires |a| + |b| <= |v.data|
    ensures Load(v, a).data[..|a|] == a && |Load(v, a).data| == |v.data|
    ensures Load(Load(v, a), a + b) == Load(v, a + b)
  {
    assert Load(v, a).data[|a + b|..] == v.data[|a + b|..];
  }

  class Message {
    var size: nat
    var offset: nat
    const capacity: nat
    var frame: nat
    const buffer: array<char>

    ghost predicate Valid()
      reads this
    {
      buffer.Length == capacity && capacity < MOD64 && size + offset <= capacity && frame <= capacity
    }

    // The frame on the wire would be exactly the bytes the message claims to hold.
    predicate Loaded()
      reads this
    {
      frame == size
    }

    ghost function Value(): MessageValue
      reads this, buffer
    {
      MessageValue(buffer[..], size, offset, frame)
    }

    ghost function Contents(): string
      requires Valid()
      reads this, buffer
    {
      buffer[..frame]
    }

    constructor (capacity: nat)
      requires capacity < MOD64
      ensures Valid() && fresh(buffer)
      ensures this.capacity == capacity && size == 0 && offset == 0 && frame == 0
    {
      this.capacity := capacity;
      size, offset, frame := 0, 0, 0;
      buffer := new char[capacity];
    }

    // Outside the wrap-around the message stays valid and, when accepted, is
    // loaded; a sum that wraps past size_t and is accepted breaks validity.
    method Resize(size: nat, offset: nat)
      requires Valid() && size < MOD64 && offset < MOD64
      modifies this
      ensures buffer[..] == old(buffer[..])
      ensures Valid() <==> size + offset < MOD64 || (size + offset) % MOD64 > capacity
      ensures (size + offset) % MOD64 <= capacity ==>
                Loaded() && this.size == size && this.offset == offset && this.frame == size
      ensures (size + offset) % MOD64 > capacity ==> Value() == old(Value())
    {
      if (size + offset) % MOD64 > capacity {
        return;
      }
      this.size := size;
      this.offset := offset;
      frame := size;
    }

    // Forgets size and offset but leaves the frame: an old frame stays sendable.
    method Reset()
      requires Valid()
      modifies this
      ensures Valid() && size == 0 && offset == 0
      ensures frame == old(frame) && buffer[..] == old(buffer[..])
      ensures Loaded() <==> old(frame) == 0
    {
      size, offset := 0, 0;
    }

    // What libzmq does to a frame it has taken.
    method Unload()
      requires Valid()
      modifies this`frame
      ensures Valid() && frame == 0
    {
      frame := 0;
    }
  }

  // memcpy of the first n bytes of data to dest[at..].
  method Copy(dest: array<char>, at: nat, data: string, n: nat)
    requires n <= |data| && at + n <= dest.Length
    modifies dest
    ensures dest[..] == old(dest[..at]) + data[..n] + old(dest[at + n..])
  {
    for i := 0 to n
      invariant forall k :: 0 <= k < i ==> dest[at + k] == data[k]
      invariant forall k :: 0 <= k < dest.Length && !(at <= k < at + i) ==> dest[k] == old(dest[k])
    {
      dest[at + i] := data[i];
    }
    ghost var was := old(dest[..at]) + data[..n] + old(dest[at + n..]);
    assert forall k :: 0 <= k < dest.Length ==> dest[k] == was[k];
  }

  // ---------- lists of messages

  // A Valid but otherwise arbitrary list: the same message may occur twice.
  ghost predicate AllValid(messages: seq<Message>)
    reads messages
  {
    forall i :: 0 <= i < |messages| ==> messages[i].Valid()
  }

  ghost predicate AllAtZero(messages: seq<Message>)
    reads messages
  {
    forall i :: 0 <= i < |messages| ==> messages[i].offset == 0
  }

  // Distinct messages over distinct buffers.
  ghost predicate Separate(messages: seq<Message>) {
    forall i, j :: 0 <= i < j < |messages| ==>
      messages[i] != messages[j] && messages[i].buffer != messages[j].buffer
  }

  ghost function Buffers(messages: seq<Message>): set<array<char>> {
    set m | m in messages :: m.buffer
  }

  ghost function Values(messages: seq<Message>): seq<MessageValue>
    reads messages, Buffers(messages)
  {
    seq(|messages|, i requires 0 <= i < |messages| reads messages, Buffers(messages) => messages[i].Value())
  }

  lemma ValuesShape(messages: seq<Message>)
    requires AllValid(messages)
    ensures |Values(messages)| == |messages|
    ensures forall i :: 0 <= i < |messages| ==> |Values(messages)[i].data| == messages[i].capacity
  {
  }

  // What each message would put on the wire now.
  ghost function Snapshot(messages: seq<Message>): map<Message, string>
    requires AllValid(messages)
    reads messages, Buffers(messages)
  {
    map m | m in messages :: m.Contents()
  }

  // Messages that nobody wrote to hold what they held.
  twostate lemma Kept(messages: seq<Message>)
    requires old(AllValid(messages))
    requires forall i :: 0 <= i < |messages| ==> unchanged(messages[i]) && unchanged(messages[i].buffer)
    ensures AllValid(messages) && Snapshot(messages) == old(Snapshot(messages))
  {
    forall i | 0 <= i < |messages|
      ensures messages[i].Contents() == old(Snapshot(messages))[messages[i]]
    {
    }
  }

  twostate lemma ValuesKept(messages: seq<Message>)
    requires old(AllValid(messages))
    requires forall i :: 0 <= i < |messages| ==> unchanged(messages[i]) && unchanged(messages[i].buffer)
    ensures AllValid(messages) && Values(messages) == old(Values(messages))
  {
    forall i | 0 <= i < |messages|
      ensures messages[i].Value() == old(Values(messages))[i]
    {
    }
  }

  lemma AllValidAt(messages: seq<Message>, m: Message)
    requires AllValid(messages)
    ensures m in messages ==> m.Valid()
  {
  }

  lemma SnapshotAt(messages: seq<Message>, m: Message)
    requires AllValid(messages) && m in messages
    ensures m.Valid() && m in Snapshot(messages) && Snapshot(messages)[m] == m.Contents()
  {
  }

  ghost predicate AllIn(messages: seq<Message>, wire: map<Message, string>) {
    forall i :: 0 <= i < |messages| ==> messages[i] in wire
  }

  // The frames that sending the messages in order puts on the wire: a message
  // listed twice has been emptied when its second turn comes.
  ghost function Outgoing(messages: seq<Message>, wire: map<Message, string>): seq<string>
    requires AllIn(messages, wire)
  {
    if messages == [] then []
    else [wire[messages[0]]] + Outgoing(messages[1..], wire[messages[0] := ""])
  }

  ghost function Frames(messages: seq<Message>): seq<string>
    requires AllValid(messages)
    reads messages, Buffers(messages)
  {
    Outgoing(messages, Snapshot(messages))
  }

  lemma {:induction false} OutgoingAt(messages: seq<Message>, wire: map<Message, string>, i: nat)
    requires AllIn(messages, wire) && i < |messages|
    ensures |Outgoing(messages, wire)| == |messages|
    ensures Outgoing(messages, wire)[i] == if messages[i] in messages[..i] then "" else wire[messages[i]]
  {
    if i == 0 {
      if |messages| > 1 {
        OutgoingAt(messages[1..], wire[messages[0] := ""], 0);
      }
    } else {
      OutgoingAt(messages[1..], wire[messages[0] := ""], i - 1);
      assert messages[..i] == [messages[0]] + messages[1..][..i - 1];
    }
  }

  // Every message of the list has been taken by libzmq.
  ghost predicate AllUnloaded(messages: seq<Message>)
    reads messages
  {
    forall i :: 0 <= i < |messages| ==> messages[i].frame == 0
  }

  lemma {:induction false} OutgoingAgrees(messages: seq<Message>, a: map<Message, string>, b: map<Message, string>)
    requires AllIn(messages, a) && AllIn(messages, b) && forall m :: m in messages ==> a[m] == b[m]
    ensures Outgoing(messages, a) == Outgoing(messages, b)
    decreases |messages|
  {
    if messages != [] {
      OutgoingAgrees(messages[1..], a[messages[0] := ""], b[messages[0] := ""]);
    }
  }

  // A message that is not in the list goes first.
  lemma FramesBehind(m: Message, messages: seq<Message>)
    requires m.Valid() && AllValid(messages) && m !in messages
    ensures AllValid([m] + messages)
    ensures Frames([m] + messages) == [m.Contents()] + Frames(messages)
    ensures Frames([m] + messages)[1..] == Frames(messages)
  {
    var all := [m] + messages;
    assert all[1..] == messages;
    OutgoingAgrees(messages, Snapshot(all)[m := ""], Snapshot(messages));
  }

  lemma FramesLength(messages: seq<Message>)
    requires AllValid(messages)
    ensures |Frames(messages)| == |messages|
  {
    if messages != [] {
      OutgoingAt(messages, Snapshot(messages), 0);
    }
  }

  lemma FramesUnloaded(messages: seq<Message>)
    requires AllValid(messages) && AllUnloaded(messages)
    ensures Frames(messages) == seq(|messages|, _ => "")
  {
    forall i | 0 <= i < |messages|
      ensures |Frames(messages)| == |messages| && Frames(messages)[i] == ""
    {
      OutgoingAt(messages, Snapshot(messages), i);
    }
    FramesLength(messages);
  }

  lemma Emptied(m: Message, messages: seq<Message>)
    requires AllValid([m] + messages) && AllUnloaded([m] + messages)
    ensures AllValid(messages) && m.Valid() && m.frame == 0 && Frames(messages) == seq(|messages|, _ => "")
  {
    hide Outgoing;
    assert ([m] + messages)[0] == m;
    assert forall i :: 0 <= i < |messages| ==> messages[i] == ([m] + messages)[i + 1];
    FramesUnloaded(messages);
  }

  // What the frames of a list say about its first message and the others.
  lemma Untouched(m: Message, messages: seq<Message>, frames: seq<string>)
    requires AllValid([m] + messages) && m !in messages && Frames([m] + messages) == frames
    ensures AllValid(messages) && m.Valid() && |frames| == 1 + |messages|
    ensures m.frame == |frames[0]| && Frames(messages) == frames[1..]
  {
    hide Outgoing;
    assert ([m] + messages)[0] == m;
    assert forall i :: 0 <= i < |messages| ==> messages[i] == ([m] + messages)[i + 1];
    FramesBehind(m, messages);
    FramesLength(messages);
  }

  function Capacities(messages: seq<Message>): seq<nat> {
    seq(|messages|, i requires 0 <= i < |messages| => messages[i].capacity)
  }

  // Fresh messages, each loaded with the given contents.
  method LoadAll(contents: seq<string>) returns (messages: seq<Message>)
    requires forall i :: 0 <= i < |contents| ==> |contents[i]| < MOD64
    ensures |messages| == |contents| && AllValid(messages)
    ensures forall i :: 0 <= i < |messages| ==> fresh(messages[i]) && fresh(messages[i].buffer)
    ensures Frames(messages) == contents
  {
    messages := [];
    for i := 0 to |contents|
      invariant |messages| == i && AllValid(messages)
      invariant forall j :: 0 <= j < i ==> fresh(messages[j]) && fresh(messages[j].buffer)
      invariant forall j :: 0 <= j < i ==> messages[j].buffer[..messages[j].frame] == contents[j]
      invariant forall j, k :: 0 <= j < k < i ==> messages[j] != messages[k]
    {
      var m := LoadOne(contents[i]);
      messages := messages + [m];
    }
    FramesDistinct(messages);
    assert forall i :: 0 <= i < |contents| ==> Frames(messages)[i] == contents[i];
  }

  method LoadOne(contents: string) returns (m: Message)
    requires |contents| < MOD64
    ensures m.Valid() && fresh(m) && fresh(m.buffer) && m.Contents() == contents
  {
    m := new Message(|contents|);
    Copy(m.buffer, 0, contents, |contents|);
    m.Resize(|contents|, 0);
    assert contents[..|contents|] == contents;
  }

  lemma FramesDistinct(messages: seq<Message>)
    requires AllValid(messages) && forall j, k :: 0 <= j < k < |messages| ==> messages[j] != messages[k]
    ensures |Frames(messages)| == |messages|
    ensures forall i :: 0 <= i < |messages| ==> Frames(messages)[i] == messages[i].Contents()
  {
    FramesLength(messages);
    forall i | 0 <= i < |messages|
      ensures Frames(messages)[i] == messages[i].Contents()
    {
      OutgoingAt(messages, Snapshot(messages), i);
    }
  }
}
