# A verified model of DPN

DPN is a message layer over ZeroMQ. A *peer* has a number, an ID counter, one label buffer, a map of
*interfaces* and an index of subscriptions; its *hub* owns *ports*, each with an inbox of multipart packages. Every
package starts with a 20-byte *label* that names message ID, type, source and destination. From this the library builds
push/pull, request/reply and publish/subscribe.

The model has two layers that share one set of functions (module `Protocol`):

* **The program.** Classes `Message`, `PortSpecification`, `Port`, `Hub`, `Label` and `Peer` with the fields, loops and
  in-place updates of the C++ classes. Each method is proved against a function of its inputs and the old state: the
  multipart print and read loops, the copy loop that scatters n frames over k buffers, the poller, the label that is
  stamped and swapped in place, the publish loop, the timed request loop.
* **The network.** A step machine of any number of peers (module `Network`). A step is one operation of one peer. An
  invariant is proved for every reachable world, and the theorems about runs of any length follow from it. Module
  `Steps` ties the two layers: peers put together into a network are shown by an initial world, and a call of one of them
  is a step of the world that shows them, after which the next world shows that peer and all the others.

| module | content |
|---|---|
| `Words`, `Naming` | integer widths; peer ID, hub name, port name, socket ID, and back |
| `Messages` | a buffer with size, offset and a libzmq frame laid over it |
| `Wire` | the boundary to libzmq: frames with "more" flags, printed and read back |
| `Ports`, `Hubs` | send, receive, scatter/gather; the port map and the poller |
| `Labels` | the label, its layout in the buffer, and the class that changes it in place |
| `Protocol`, `Publishing` | what each operation does, on values, and what it means |
| `Peers`, `Waiting` | the class `Peer`; the request loop's account of packages and time |
| `Network`, `Runs` | the step machine, its invariant, and theorems over all runs |
| `Steps` | every sending and receiving method of the class `Peer` is a step of the network |
| `Subscriptions`, `Requests`, `Lockstep` | the subscription index, publish/subscribe and request/reply over runs |
| `Accepting`, `Fates` | what the request loop accepts, and what becomes of every package, exactly, over all runs |
| `Scenarios` | concrete calls and runs in which a promise is broken |

## Assumptions at the boundary

libzmq is not part of this model. What is assumed of it:

* A ROUTER send consumes the address frame, and the receiver finds the sender's routing ID in its place (ROUTER Socket
  Type section of ZeroMQ RFC 28/REQREP). The routing ID is the socket ID the port is bound to.
* A receive without a flag returns once a package is there, so a waiting package is a precondition of it.
* A package is delivered whole, and first in, first out for each inbox. Every bound port can be reached from every other
  one. A send to an address nobody is bound to throws.
* A frame lies over the buffer of its message without a copy, and libzmq empties the frame of a message it has taken.
  The length of the frame is part of a message's state, so "sent loaded" is derived, not assumed. A frame's bytes are
  read when it is sent: the sender leaves the buffer alone until the package has been received.
* `wait` reports some socket that has a requested event pending, and throws the time-out only if none has.
* One byte is one `char`. The label struct is laid out low byte first, with two bytes of padding that are zero.
* The bodies of user handlers are arbitrary: they choose Pass or Fail and the frames of the reply, and leave the peer's
  own buffers and the label alone.
* The clock of the request loop is any sequence of readings that never goes back and never stands still for ever;
  what other peers send during each wait is arbitrary.

## Where the code and its documentation part

For each of these the exact condition is proved, and where it fails, a concrete call or run is given (module
`Scenarios`).

* The description of `Publish` (dpn/peer/inc/Peer.hpp:72-79) promises the contents to every subscriber. The loop pushes
  the same messages again and again, and the first push leaves their frames empty. Every recorded subscriber gets a package
  with label and payload exactly when there is none, or a single one that can be served and the label was loaded before
  the call (`Publishing.PublishCarriesToAll`). So a second subscriber gets neither
  (`Scenarios.SecondSubscriberGetsNothing`), and an only subscriber gets no label from a second publish
  (`Scenarios.SecondPublishHasNoLabel`).
* `Publish` stops at the first recorded subscriber whose socket nobody has bound while the local port is there; exactly
  those before it are served (`Publishing.PublishOutcome`). A peer that accepts a subscription without a label may record
  such a subscriber, and its publish throws before anything leaves (`Scenarios.PublishStopsAtNobody`).
* The second of two sends without a receive between them has no label, and its receiver acts on the label it received
  before (`Publishing.SecondSendHasNoLabel`). A peer's label is loaded exactly when, of its operations that sent or took a
  package, the last one took a package with a label and sent none, or there was none yet
  (`Accepting.LoadedExactly`). So if nobody else sends to a requesting peer, it can only send a loaded
  request once the answer to the last one has been received (`Lockstep.RequestsRunInLockstep`).
* The request loop reads the ID from its own label buffer. A package with a label is accepted exactly when its ID is the
  counter. One without a label leaves the peer's own stamp in the buffer: whoever sent it, it is accepted exactly when
  it is the first package the loop takes. The checks of a receive notice it (`Fates.StrayIsNoticed`) but only warn (`Accepting.RequestLoopAccepts`, `Accepting.UnlabelledIsAccepted`). A run in
  which the request of one peer is ended by the stray package of another is `Scenarios.StrangerIsAccepted`.
* A reply carries the replier's own counter. It has its request's ID exactly when that counter stood one behind the ID
  when the request was served (`Runs.ReplyCarriesID`). A replier that sends anything else first may have its answer
  dropped (`Scenarios.AnswerIsDropped`); one that only answers stays in step for ever
  (`Requests.RequestsAndRepliesPair`).
* `resize` adds size and offset modulo 2^64 before it compares. The message stays valid exactly when that sum does not
  wrap or is refused all the same (`Messages.Message.Resize`); size 1 at offset 2^64-1 is accepted by every message
  (`Scenarios.ResizeAcrossTheEnd`).
* The copy loops of `Receive` cut each frame to the capacity of the buffer but do not look at what is in the last buffer
  already. They stay inside their buffers exactly when the frames for the last message fit together
  (`Ports.Port.Scatter`, `Ports.Port.Gather`); two frames of two bytes overrun a buffer of three
  (`Scenarios.TwoFramesOverrun`).
* `RemovePort` forgets a port without closing its socket: its address stays in use (`Hubs.Hub.RemovePort`), so adding the
  same ID again throws (`Scenarios.AddAgain`).
* Port names of general hubs read back exactly when the hub name holds no `-`, socket IDs exactly when it also holds
  no `/` (`Naming.PortNameRoundTrip`, `Naming.HubAndPortRoundTrip`). Hub names of peers are numbers and hold neither. The hubs `a-1` and `a/b` are
  misread (`Scenarios.DashInHubName`, `Scenarios.SlashInHubName`).
* `Label(Contents&)` resets the endpoints it was given, whatever they are (`Labels.Label.FromContents`).

## Model

| member | source | states |
|---|---|---|
| `Naming.PortNameRoundTrip` | dpn/hub/inc/Hub.hpp:42-51 | SetPortName undoes GetPortName, for every 16-bit port ID, if and only if the hub name has no `-` |
| `Naming.ParseOfNoDash` | dpn/hub/inc/Hub.hpp:43-51 | a name without a dash is all hub name, and has no port ID to read |
| `Naming.StoiReads` | dpn/hub/inc/Hub.hpp:50 | stoi reads leading space, one sign and the digits behind it, whatever follows, and throws beyond 32 bits |
| `Naming.StoiThrows` | dpn/peer/inc/Peer.hpp:190-193 | and it throws where no digit follows |
| `Naming.SocketIDRoundTrip` | dpn/port/inc/Port.hpp:66-81 | PortNameFromSocketID undoes PortNameToSocketID if and only if the port name has no `/` |
| `Naming.FromShortSocketID` | dpn/port/inc/Port.hpp:72-81 | a socket ID with fewer than two slashes gives its last part, since a read at the end of the stream leaves the target alone |
| `Naming.HubAndPortRoundTrip` | dpn/port/inc/Port.hpp:66-81 | hub name and port ID survive printing to a socket ID and both parsers if and only if the hub name has neither delimiter |
| `Naming.HubNameRoundTrip` | dpn/peer/inc/Peer.hpp:185-193 | every 16-bit peer ID survives the way to the hub name and back, and its hub name has no delimiter |
| `Naming.SocketIDDecodes` | dpn/peer/src/Peer.cpp:243-254 | what a receiver reads off the sender's socket ID is the sender's peer and port ID, for all 16-bit values |
| `Naming.SocketIDInjective` | dpn/peer/src/Peer.cpp:220-231 | two (peer, port) pairs share a socket ID only if they are the same pair |
| `Naming.PortSpecification.SetPortName` | dpn/hub/inc/Hub.hpp:43-51 | when stoi throws, the hub name is already replaced and the port ID is not |
| `Messages.Message.constructor` | dpn/message/src/Message.cpp:10-15 | a new message has a buffer of its capacity and an empty frame |
| `Messages.Message.Resize` | dpn/message/src/Message.cpp:22-34 | accepted exactly when size plus offset, modulo 2^64, is at most the capacity, and then loaded with just that size and offset; a refusal changes nothing, bytes never change; validity survives exactly unless the sum wraps and is accepted |
| `Messages.Message.Reset` | dpn/message/src/Message.cpp:36 | size and offset are forgotten but an old frame stays sendable: the message is loaded only if its frame was empty |
| `Wire.ReadUndoesFlags` | dpn/port/src/Port.cpp:205-216 | reading up to the first part without the more flag returns exactly one printed message and leaves the rest of the stream |
| `Wire.ParseUndoesPrint` | dpn/port/src/Port.cpp:321-361 | reading message after message off a stream of any number of printed packages recovers each of them, in order |
| `Wire.SendWhole` | dpn/port/src/Port.cpp:326-341 | frames sent one by one, all but the last with SNDMORE, arrive as one whole package behind all earlier ones, or nothing happens |
| `Wire.ReadLoop` | dpn/port/src/Port.cpp:205-216 | the read loop returns what reading one multipart message returns, and leaves the rest of the stream |
| `Wire.Context.ReadParts` | dpn/port/src/Port.cpp:205-216 | one receive consumes exactly the oldest whole package of the inbox, with its sender, and nothing if none waits |
| `Ports.Port.constructor` | dpn/port/src/Port.cpp:8-14 | the port's socket is bound to the ID made of its name, with an empty inbox |
| `Ports.Port.SendData` | dpn/port/src/Port.cpp:321-350 | the queue goes to the socket frame by frame; the messages it took are emptied, and a refused send changes neither network nor messages |
| `Ports.Port.LoadMultipart` | dpn/port/src/Port.cpp:352-361 | the queue is the address, the delimiter, then every message in order |
| `Ports.Port.Send` | dpn/port/src/Port.cpp:311-318 | exactly one package, delimiter and frames in order, is appended to the target's inbox and every message is emptied; an unreachable target throws and changes nothing |
| `Ports.Port.SendOne` | dpn/port/src/Port.cpp:302-309 | the overload for one message delivers what the vector overload delivers for a list of one |
| `Ports.Port.Receive` | dpn/port/src/Port.cpp:192-299 | how each package ends (incomplete, malformed, accepted, overrun) by its frames; only with the flag not to wait does it return with nothing; one package is consumed; only an accepted one changes the messages, which then hold their shares of its body |
| `Ports.Port.ReceiveOne` | dpn/port/src/Port.cpp:92-188 | the overload that resizes once leaves the very value, and ends the very way, the vector overload does on a list of one |
| `Ports.Port.CopyFrames` | dpn/port/src/Port.cpp:145-165 | the copy loop stays in the buffer if and only if the cut frames fit together, and then lays them one behind the other and leaves the bytes behind them alone |
| `Ports.Port.Gather` | dpn/port/src/Port.cpp:144-166 | resizing once after all copies agrees with the scattering of the vector overload, which resizes after each |
| `Ports.Port.Scatter` | dpn/port/src/Port.cpp:244-281 | the in-place copy loop stays in its buffers if and only if the frames for the last message fit together, and then every message holds its share |
| `Ports.Port.Place` | dpn/port/src/Port.cpp:264-269 | one turn of the copy loop changes one message and builds its frame over old prefix and new frame; the others keep bytes, size and frame |
| `Ports.DealIsDealt` | dpn/port/src/Port.cpp:247-276 | the turns of the copy loop, taken together, give each message its share, and fail exactly when the last message would overflow |
| `Ports.ScatterMeaning` | dpn/port/src/Port.cpp:244-281 | message i before the last holds frame i cut to its capacity, the last the uncut concatenation of all remaining frames (or one cut frame), surplus messages and the bytes behind the contents are unchanged, sizes equal frames |
| `Ports.JoinedIsFlat` | dpn/port/src/Port.cpp:250-267 | frames that fit, together or each by itself, are joined without being cut |
| `Ports.EndingOfSent` | dpn/port/src/Port.cpp:218-244 | a package that a port sent is never malformed: it is accepted under that port's name exactly when it has a frame and its frames fit |
| `Hubs.Hub.AddPort` | dpn/hub/src/Hub.cpp:43-61 | map and poller stay in step; a fresh address adds exactly this port, one in use throws and changes nothing |
| `Hubs.Hub.RemovePort` | dpn/hub/src/Hub.cpp:63-72 | map and poller lose exactly this port and stay in step, but its address stays bound |
| `Hubs.Hub.NamesDecode` | dpn/hub/src/Hub.cpp:48-52 | every mapped port's name decodes to the hub name and its map key if and only if the hub name has no `-` |
| `Hubs.Hub.FindPort` | dpn/hub/src/Hub.cpp:194-206 | a port is found exactly for mapped IDs, and it is usable and bound under the socket of that ID |
| `Hubs.Hub.SetFlags` | dpn/hub/src/Hub.cpp:174-178 | every registration asks for the given events, and none is added, lost or given another port ID |
| `Hubs.Hub.Poll` | dpn/hub/src/Hub.cpp:172-191 | throws if and only if no mapped port has one of the events; otherwise reports a mapped port with exactly its pending events among those asked for |
| `Hubs.Hub.Send` | dpn/hub/src/Hub.cpp:114-125 | which of no local port, unroutable and sent it is, and the one package a send adds to the inbox the specification names |
| `Hubs.Hub.Receive` | dpn/hub/src/Hub.cpp:156-169 | an accepted package's bodies go to the messages, which nothing else changes; the specification is what the sender's name parses to, for accepted and malformed packages, and for an incomplete one it throws on the empty name |
| `Labels.LabelRoundTrip` | dpn/label/inc/Label.hpp:83-89 | a label written to the buffer reads back field by field, for all values |
| `Labels.LabelLayout` | dpn/label/inc/Label.hpp:56-89 | where each byte of each field of a label lies in the buffer |
| `Labels.Label.constructor` | dpn/label/inc/Label.hpp:99-102 | only the endpoints are initialised |
| `Labels.Label.FromContents` | dpn/label/inc/Label.hpp:104-107 | ID and type are kept but the endpoints given are lost |
| `Labels.Label.SetPeerID` | dpn/label/inc/Label.hpp:122 | one peer ID changes; ID, type, port, interface and the other endpoint are kept, field by field |
| `Labels.Label.Swap` | dpn/label/inc/Label.hpp:125-130 | source and destination are exchanged in place, ID and type are kept, field by field |
| `Peers.Peer.constructor` | dpn/peer/src/Peer.cpp:9-19 | a new peer is valid, its label frame loaded, its counter zero, maps empty |
| `Peers.Peer.AddInterface` | dpn/peer/inc/Peer.hpp:153-156 | an interface ID that is taken keeps its first interface |
| `Peers.Peer.AddPort` | dpn/peer/src/Peer.cpp:296-303 | a free address adds exactly this port and an empty inbox; one in use throws and changes nothing |
| `Peers.Peer.StampLabel` | dpn/peer/src/Peer.cpp:216-224 | buffer and caller's label name this peer as source; only the buffer's copy gets the next ID; the package's bytes are untouched |
| `Peers.Peer.SendMessages` | dpn/peer/src/Peer.cpp:212-232 | refines `Protocol.Send`: state, caller's label, frames left and inboxes after every outcome |
| `Peers.Peer.Push` | dpn/peer/src/Peer.cpp:69-72 | refines `Protocol.Send` |
| `Peers.Peer.Subscribe` | dpn/peer/src/Peer.cpp:32-43 | refines `Protocol.Subscribe`: the label goes behind those recorded for its source interface |
| `Peers.Peer.PushReceipt` | dpn/peer/src/Peer.cpp:57-60 | a push to one receipt stamps that receipt in place and no other |
| `Peers.Peer.Publish` | dpn/peer/src/Peer.cpp:45-61 | refines `Protocol.Publish`, including the push that throws and ends the loop |
| `Peers.Peer.ReceiveMessages` | dpn/peer/src/Peer.cpp:235-261 | the oldest package of the port is consumed, label and bodies go to their own buffers, and the two checks have the outcome of comparing label and sender |
| `Peers.Peer.Poll` | dpn/peer/src/Peer.cpp:178-209 | times out exactly when no port has one of the events; reports an unhandled event only for a port that has some of them but no input; otherwise exactly one package is received |
| `Peers.Peer.GetPendingPackage` | dpn/peer/src/Peer.cpp:79-96 | times out exactly when nothing waits, leaving everything as it was; otherwise returns the label and bodies of the head of some port's inbox |
| `Peers.Peer.HandleReply` | dpn/interface/inc/ReplyInterface.hpp:23-32 | with Pass, one send of the return package under the swapped label; otherwise nothing |
| `Peers.Peer.HandleSubscription` | dpn/interface/inc/SubscriptionInterface.hpp:24-32 | with Pass, the swapped label is recorded; otherwise nothing |
| `Peers.Peer.ServiceInterfaces` | dpn/peer/src/Peer.cpp:265-294 | refines `Protocol.Serve` on the head of one inbox, down to the throw of a reply that cannot be routed, and returns without effect exactly when nothing waits |
| `Peers.Peer.AwaitTurn` | dpn/peer/src/Peer.cpp:119-126 | after any arrivals, one poll takes one head, whose bodies the caller's messages then share, or finds that nothing waits and leaves them alone |
| `Peers.Peer.RequestImpl` | dpn/peer/src/Peer.cpp:107-152 | terminates; ends when the ID in the label buffer is the counter, having dropped exactly the packages before, or out of time, or at a poll that threw; every inbox balances; every wait fits into the time left; the caller's messages hold what dealing out each package in turn makes of them |
| `Peers.Peer.Request` | dpn/peer/src/Peer.cpp:154-162 | the ID that is waited for is that of the request just stamped; a request that cannot be routed throws before it waits; at most the frames of receive messages that are sent as well are touched before the loop |
| `Waiting.TurnMade` | dpn/peer/src/Peer.cpp:127-150 | one more package keeps the account of the loop, which ends with it if and only if the label buffer then holds the ID |
| `Waiting.IDReadMeans` | dpn/peer/src/Peer.cpp:130-131 | the ID read after a turn is that of its package, or without a label the one read before; it is the counter exactly when the turn is a match |
| `Waiting.EndedByID` | dpn/peer/src/Peer.cpp:117-140 | of the labelled packages a request took, exactly the one it accepted carries the ID it waited for, and that one is the last |
| `Waiting.ArrivalsBalance` | dpn/peer/src/Peer.cpp:117-126 | arrivals during a wait keep, for every port, "was there + arrived = taken + waits now", in order |
| `Waiting.TakingBalances` | dpn/peer/src/Peer.cpp:117-126 | so does taking the head of one port's inbox |
| `Waiting.AcceptedContents` | dpn/peer/inc/Peer.hpp:46-61 | an accepted request delivers: each message for which the accepted package has a body holds exactly its share of it |
| `Waiting.LoopContents` | dpn/peer/src/Peer.cpp:117-150 | however the loop ends, each message holds its share of the last package that had one for it, dropped or not, and else what it held before |
| `Waiting.TotalWaiting` | dpn/peer/src/Peer.cpp:112-150 | however the loop ends, all its waiting together takes no longer than the timeout |
| `Protocol.SendEmits` | dpn/peer/src/Peer.cpp:212-232 | a delivery with a whole label tells the truth about sender, target and number; ports, interfaces and index are untouched |
| `Protocol.PublishEmits` | dpn/peer/src/Peer.cpp:45-61 | all deliveries of a publish are truthful and carry new, increasing serial numbers |
| `Protocol.ServeEmits` | dpn/peer/src/Peer.cpp:265-294 | so do the deliveries of serving any package |
| `Protocol.ReceiveKeeps` | dpn/peer/src/Peer.cpp:235-245 | the label frame, cut to the label's size, overlays the buffer and sets the frame's length: a whole label replaces it and loads it, an empty one leaves it there, unloaded; counter and index are kept |
| `Publishing.SendMeaning` | dpn/peer/src/Peer.cpp:212-232 | one package if port and target exist and none otherwise, one stamp either way; the label on the wire has the new ID, the caller's type, this peer with the caller's source port and interface, and the caller's destination; it is whole if and only if the label was loaded, and that is used up |
| `Publishing.SendLeaves` | dpn/peer/src/Peer.cpp:216-224 | whatever the outcome: the caller's label has one peer ID changed; the buffer has that label with the new ID; ports, interfaces, subscriptions are kept; the frames are empty exactly if sent |
| `Publishing.SecondSendHasNoLabel` | dpn/peer/src/Peer.cpp:226-231 | without a receive in between, a second send has no label and is dispatched by the receiver's previous label |
| `Publishing.PublishOutcome` | dpn/peer/src/Peer.cpp:45-61 | for every topic, index and network: throws if and only if some receipt has a local port that is there and a target that is not; exactly the receipts before the first such one are served, in order, one package for each whose local port is there; a topic without subscribers sends nothing and changes nothing |
| `Publishing.PublishAfter` | dpn/peer/src/Peer.cpp:57-60 | exactly the receipts that were tried are stamped, in their source peer and nothing else; other topics are untouched; the buffer has the last one's label |
| `Publishing.PublishReachesEach` | dpn/peer/src/Peer.cpp:45-61 | if every receipt can be served, exactly one package per subscription, in order, to the subscriber's socket from the recorded port; the counter rises by that number modulo 2^32 |
| `Publishing.PublishCarriesToAll` | dpn/peer/inc/Peer.hpp:69-84 | every recorded subscriber gets a package with label and payload if and only if there is none, or one that can be served and the label was loaded |
| `Publishing.OnlyTheFirstCarries` | dpn/peer/src/Peer.cpp:57-60 | each package of a publish left for one receipt, and carries label and payload if and only if it is the first and the label was loaded |
| `Publishing.ServeMeaning` | dpn/peer/src/Peer.cpp:265-294 | serving sends if and only if the label left in the buffer names a Reply interface and its handler passes, and then exactly one reply, with the label's endpoints exchanged; a passing Subscription interface records the exchanged label and nothing else; every other case changes nothing but the label buffer |
| `Publishing.CheckMeaning` | dpn/peer/src/Peer.cpp:247-260 | the checks find nothing exactly when the label's source is the very port the package came from; a wrong port is reported before a wrong peer |
| `Publishing.HandlerSees` | dpn/peer/src/Peer.cpp:235-245 | for any 1 to 7 bodies that fit, the handler's message is exactly their concatenation and the label exactly the stamped one |
| `Network.PostAllKeeps` | dpn/peer/src/Peer.cpp:212-232 | any number of truthful deliveries with new serial numbers keeps conservation, honesty and distinctness of the mail |
| `Network.PostAllDelivers` | dpn/peer/src/Peer.cpp:231 | posting to the network's mail is delivering to its inboxes |
| `Steps.StartsHere` | dpn/peer/src/Peer.cpp:9-19 | peers that have sent and recorded nothing, over empty inboxes, are the start of a run |
| `Steps.MakePeer` | dpn/peer/src/Peer.cpp:9-19 | a new peer shares no part with the others but the context, and leaves their validity and states alone |
| `Steps.MakePort` | dpn/peer/src/Peer.cpp:296-303 | adding a port leaves the other peers' validity and states alone |
| `Steps.MakePush` | dpn/peer/src/Peer.cpp:69-72 | a call of Push by one of several peers shown by a world is a step of that world, and the next world shows all of them |
| `Steps.MakePublish` | dpn/peer/src/Peer.cpp:45-61 | so is a call of Publish |
| `Steps.MakeServe` | dpn/peer/src/Peer.cpp:265-294 | so is a call of ServiceInterfaces that does not time out |
| `Steps.MakeFetch` | dpn/peer/src/Peer.cpp:79-96 | so is a call of GetPendingPackage that does not time out |
| `Steps.MakeAwait` | dpn/peer/src/Peer.cpp:117-140 | so is a turn of the request loop that takes a package |
| `Runs.StepKeeps` | dpn/peer/src/Peer.cpp:32-294 | every operation of every peer keeps the invariant of the network and the set of bound sockets |
| `Runs.RunInv` | dpn/peer/src/Peer.cpp:32-294 | the invariant holds in every world of every run |
| `Runs.QueuedLabelsAgree` | dpn/peer/src/Peer.cpp:247-260 | in every reachable world a waiting package with a whole label names the source its routing frame decodes to and the inbox it waits in, so neither consistency check fails |
| `Fates.Conservation` | dpn/peer/src/Peer.cpp:79-96 | at every later moment, all that ever entered an inbox is what was taken from it, in order, followed by what waits; no two arrivals are the same send; and each package that was taken was taken by one step as the head, with the fate that step gave it: returned by a fetch, accepted or dropped by a request by its ID, or handed to the interface its label names, if there is one |
| `Fates.StepFate` | dpn/peer/src/Peer.cpp:117-151 | a step takes nothing, or the head of one inbox with its true fate |
| `Fates.ServingSends` | dpn/interface/inc/ReplyInterface.hpp:23-32 | in every run, with a label of its own or an old one: a serving step changes what arrived anywhere if and only if a Reply interface passed and its reply can leave, and then by that reply alone |
| `Fates.OnlyServingAnswers` | dpn/peer/src/Peer.cpp:79-151 | no other step answers, and a fetch or a turn of a request sends nothing |
| `Fates.StrayIsNoticed` | dpn/peer/src/Peer.cpp:247-260 | while a peer's own label is in its buffer, the checks report every package without a label from another peer |
| `Runs.ArrivedIsTakenOrWaits` | dpn/peer/src/Peer.cpp:79-96 | the part of conservation that needs no fates |
| `Runs.StampIsSerial` | dpn/peer/src/Peer.cpp:223-224 | the ID of every labelled package that ever arrived is its sender's serial number modulo 2^32, from 1 up to what the sender has stamped |
| `Runs.StampsDiffer` | dpn/peer/src/Peer.cpp:223-224 | labelled packages of one sender fewer than 2^32 stamps apart have different IDs |
| `Runs.ReplyReaches` | dpn/interface/inc/ReplyInterface.hpp:23-32 | in every run, a labelled request answered with Pass puts exactly one package on the network: from the port it came in on, to the inbox of the port that sent it, with endpoints exchanged and the replier's next ID |
| `Runs.ReplyCarriesID` | dpn/peer/src/Peer.cpp:223-224 | in every run, the reply to a labelled request is labelled, and carries the request's ID if and only if the replier's counter was one behind that ID |
| `Subscriptions.IndexIsAcceptances` | dpn/interface/inc/SubscriptionInterface.hpp:24-32 | in every reachable world the index at an interface is, one for one and in order of acceptance, the swapped labels accepted there; for labelled packages exactly, each naming this peer, and Publish's stamp changes nothing; port by port, what was accepted is what was taken from that inbox and passed by the interface, in inbox order |
| `Subscriptions.SubscribersReachable` | dpn/peer/src/Peer.cpp:57-60 | as far as the accepted packages were labelled, every recorded subscriber has a bound socket and an existing local port, so no publish stops before it |
| `Subscriptions.SubscriptionDelivers` | README.md:109-113 | once B accepted A's subscription, A's package of every later publish by B there enters the inbox of A's subscribing port if and only if the publish does not stop before A's receipt; if it is the first to leave and the label is loaded, it carries label and payload, and serving it is handled by the interface A named |
| `Requests.DialogueInStep` | dpn/peer/src/Peer.cpp:212-232 | in every run where A only requests and B only answers, A's k-th arrival at B is request k, B's k-th answer is reply k, and everything B ever sent is such an answer |
| `Requests.RequestsAndRepliesPair` | dpn/peer/src/Peer.cpp:223-224 | B has sent one reply for each of its numbers; its k-th was sent for A's k-th request, both labels are whole, and both carry k modulo 2^32 |
| `Requests.RequestAcceptsItsAnswer` | dpn/peer/src/Peer.cpp:127-140 | a turn of A's request loop accepts a package of B if and only if it is the answer to A's latest request, as long as it is fewer than 2^32 behind; late replies are dropped |
| `Accepting.StepStamps` | dpn/peer/src/Peer.cpp:212-245 | label frames on the network are whole or empty; a push leaves the peer's stamp in its label buffer, and it stays until a package with a label is taken |
| `Accepting.TurnAccepts` | dpn/peer/src/Peer.cpp:127-140 | in every reachable world: a labelled package is accepted if and only if its ID is the counter, one without a label if and only if the ID left in the peer's own buffer is |
| `Accepting.OwnStampStays` | dpn/peer/src/Peer.cpp:216-224 | from a push on, whatever the peer does, its own stamp stays in the buffer for as long as it takes no label |
| `Accepting.UnlabelledIsAccepted` | dpn/port/src/Port.cpp:264-269 | so in that time the request loop accepts every package without a label, whoever sent it |
| `Accepting.LoadedExactly` | dpn/peer/src/Peer.cpp:226-231 | in every run, a peer's label is loaded if and only if its last operation that sent or took a package took one with a label and sent none, or there was none |
| `Accepting.RequestLoopAccepts` | dpn/peer/src/Peer.cpp:117-150 | in every run, a request loop accepts a labelled package if and only if its ID is the counter, and an unlabelled one if and only if it is the first it takes |
| `Lockstep.DialoguePhased` | dpn/peer/src/Peer.cpp:107-162 | with nobody else sending to A, every world is idle, asked or answered, and an answer that waits is the only package that does |
| `Lockstep.RequestsRunInLockstep` | dpn/peer/src/Peer.cpp:107-162 | a loaded request is sent only when every earlier answer was received, and the package a turn finds is the answer to the latest request, which is accepted |
| `Scenarios.StrangerIsAccepted` | dpn/peer/src/Peer.cpp:127-132 | a request run in which a third peer's package without a label is accepted as the answer while the request still waits |
| `Scenarios.AnswerIsDropped` | dpn/peer/src/Peer.cpp:223-224 | a run in which the answer to the first request carries number 2 and is dropped |
| `Scenarios.SecondSubscriberGetsNothing` | dpn/peer/inc/Peer.hpp:72-79 | a run with two accepted subscriptions in which one publish gives the first subscriber label and payload and the second neither |
| `Scenarios.PublishStopsAtNobody` | dpn/peer/src/Peer.cpp:57-60 | a run in which a package without a label is accepted as a subscription of a socket nobody bound, and the next publish throws before anything leaves |
| `Scenarios.SecondPublishHasNoLabel` | dpn/peer/inc/Peer.hpp:72-79 | a run with one subscriber whose second published package has no label |
| `Scenarios.ResizeAcrossTheEnd` | dpn/message/src/Message.cpp:22-34 | one byte at offset 2^64-1 is accepted at every capacity and leaves the message reaching outside its buffer |
| `Scenarios.TwoFramesOverrun` | dpn/port/src/Port.cpp:147-165 | two frames of two bytes, each of which fits, overrun a receive buffer of three |
| `Scenarios.DashInHubName` | dpn/hub/inc/Hub.hpp:42-51 | port 2 of hub `a-1` reads as port 1 of hub `a` |
| `Scenarios.SlashInHubName` | dpn/port/inc/Port.hpp:72-81 | the port name of hub `a/b` is cut at the slash |
| `Scenarios.AddAgain` | dpn/hub/src/Hub.cpp:43-72 | adding a port, removing it and adding it again throws, for every hub and ID |

## Left out

- Hubs.Hub.Poll: does not say which of several ready ports is reported, because that is the poller's order inside libzmq.
- Requests.RequestsAndRepliesPair: is about runs in which nobody else sends to the replier's port, because the replier counts every reply it sends; for all other runs `Runs.ReplyCarriesID` has the exact condition.
- The sockets, threads and buffers of libzmq, and memory shared with them while a package is under way: peers act in atomic steps and bytes are read at the send.
- `Connect`, `Disconnect`, `Unbind` and `Close` of ports and hubs: all bound ports can be reached from the start. `Peer::Disconnect`, which looks up the remote port ID among the local ports, goes with them.
- `Port::connections_` and `Port::bindings_`, which only those operations read, and the destructors.
- The ipc and tcp transports, which the transport function does not support.
- A receive with nothing waiting and no flag, which blocks; packages of more than ten received frames, an empty list of receive messages, receive messages at an offset or sharing a buffer, and the removal of a port that is not there: the code does not handle them, so they are preconditions.
- Packages whose routing frame is not the socket ID of a peer's port, for the peer's receive operations; ports and hubs take any sender.
- The hub's single-message overloads of Send and Receive, which call the ports' overloads that are modelled.
- Handlers that change the label, the peer's label message or its subscription index while they run.
- A clock that goes back, which the system clock may do; the request loop could then wait longer than its timeout.
- Adding and removing ports or interfaces during a run of the network: the peers of a run are fixed, the methods of `Hub` and `Peer` cover the changes.
- `Error.hpp`, logging, `ContextManager` and the heartbeat stub: plumbing.
- `TopicInterface.hpp`, `PushLabel`, `RequestLabel` and `PublishLabel`, which nothing uses, and `PullInterface`, of which only the dispatch to it matters.
