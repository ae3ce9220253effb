# nuke-ms: verified model

nuke-ms is a chat system: clients connect to a server over TCP, and whatever one of them says the server
relays to all of them. This project models, in Dafny, the three parts in which its difficulty lies and proves
what they promise, separately and together.

* **The codec and the framing.** Values in little-endian wire order on every host (`bytes.dfy`), message layers
  that wrap each other and are written through advancing iterators (`message_layers.dfy`), and the
  header/body receive loop that cuts a byte stream into packets (`framing.dfy`).
* **The server.** `server_protocol.dfy` gives its steps as a state machine over handler completions;
  `server_runs.dfy`, `server_steps.dfy`, `server_reader.dfy` and `server_drain.dfy` prove what holds over all its
  runs: the order of the broadcast, the lives of peers, who is reported and who leaves, what it makes of arriving
  bytes, and that it drains. `dispatcher.dfy` is the
  code itself, with objects that are updated in place, counted references, and callbacks that re-enter
  the dispatcher; each turn of its event loop is proved to be a step of that state machine.
* **The clients.** `client_protocol.dfy` is the connection machine (waiting, negotiating, connected) with
  handlers that may run late, in any state; `client_runs.dfy`, `client_steps.dfy` and `client_reader.dfy` prove
  the properties of its runs, and `client_machine.dfy` is the object whose entry points are proved to be those steps.
  `connected_client.dfy` is the service node's connection, whose handlers find their parent through a weak
  reference.

`end_to_end.dfy` joins them: a message that a client hands in arrives at every listed client unchanged, in one
order, exactly when it is short enough. `possible_chat.dfy` shows that there are such runs, for all messages.

Where to start reading: `ServerRuns.BroadcastOrder`, `ServerDrain.DrainTerminates`,
`Dispatcher.DispatchingServer.Dispatch`, `Framing.ChunkInvariance`, `ClientRuns.ReportOrder`,
`EndToEnd.CodecBound`, `EndToEnd.ThreeReaders`, `EndToEnd.GroupChat`.

`dafny verify dfyconfig.toml` checks the whole project.

## Conventions

* A byte is a number below 256 and `byte_traits` characters are one byte. Values of a fixed width are numbers
  below 256^w, and every cast that can cut something off (`packetsize` to 16 bits) is written out.
* An asynchronous operation is an entry in a list of pending handlers. The environment picks the next one
  to run and how it ends. A read succeeds exactly with its buffer full; a read on a socket that has been
  shut down cannot, unless its buffer is empty. Handlers never run inside the call that starts them.
* `packetsize - header_length` is computed in a 64-bit `size_t`, so a header that announces less than its own
  length makes the buffer allocation throw `std::length_error`. The client catches it and disconnects
  (`src/clientnode/statemachine.cpp:532`); in the server and in `ConnectedClient` nothing does, and the run
  ends there (`Aborted`, `escaped`), without the unwinding that may follow.
* Order of writing means the order in which `async_write` is called.
* The number of temporary copies of a counted reference inside one call is left to the compiler; one
  temporary reference is made and dropped wherever the source makes at least one.

## Model

| member | source | states |
|---|---|---|
| Bytes.ReverseInPlace | include/bytes.hpp:102-111 | the in-place loop over a byte buffer leaves exactly the reversed contents, position by position |
| Bytes.ReverseObject | include/bytes.hpp:102-111 | the generic `reversebytes` on an object of any width, on either host, is the value with the reversed bytes |
| Bytes.ReverseBytesInvolutive | include/bytes.hpp:102-111 | generic reversal stays in range, reverses the wire image and undoes itself, for every width |
| Bytes.ShiftMask2IsGeneric | include/bytes.hpp:118-122 | the two-byte shift/mask form, as a number, is the generic reversal of the number, and an involution |
| Bytes.ShiftMask4IsGeneric | include/bytes.hpp:126-130 | the four-byte shift/mask form, as a number, is the generic reversal of the number, and an involution |
| Bytes.ReverseSignedInvolutive | include/bytes.hpp:133-140 | the signed overloads reverse the bytes of the signed object, stay in its range and undo themselves |
| Bytes.WriteBytes | include/bytes.hpp:156-165 | writes exactly the value's bytes at the iterator, changes no other byte, returns the advanced iterator |
| Bytes.ReadBytes | include/bytes.hpp:177-187 | reads exactly the bytes at the iterator and returns the advanced iterator |
| Bytes.LittleAt | include/bytes.hpp:204-266 | the k-th wire byte of a value of any width is its k-th byte, least significant first |
| Bytes.MemoryAt | include/bytes.hpp:156-165 | where each byte of a value lies in the memory of a little-endian and of a big-endian host |
| Bytes.WireOrder | include/bytes.hpp:177-187 | the numbers that two and four wire bytes stand for |
| Bytes.WrittenIsLittleEndian | include/bytes.hpp:214-231 | writing a converted value gives the same bytes on either host, for every width: byte k is x / 256^k mod 256, the least significant one first |
| Bytes.ReadIsLittleEndian | include/bytes.hpp:249-266 | reading and converting back gives, on either host, the one number below 256^w whose k-th byte, counted from the least significant, is the k-th byte on the wire |
| Bytes.ByteOrderIndependence | include/bytes.hpp:214-266 | a value written on one host and read on any other arrives unchanged |
| MessageLayers.Append | include/bytes.hpp:156-165 | one more field behind those already written leaves their concatenation in the buffer and the rest as it was |
| MessageLayers.FillUserId | include/neartypes.hpp:91-93 | an id is written as its eight wire bytes, on either host |
| MessageLayers.FillString | include/msglayer.hpp:591-600 | the character loop writes exactly the text |
| MessageLayers.FillMessage | include/neartypes.hpp:193-213 | identifier, id, recipient, sender and text in wire order, exactly `size()` bytes |
| MessageLayers.FillHeader | include/msglayer.hpp:572-589 | 0x80, the size cut to 16 bits in wire order, 0 |
| MessageLayers.FillSerialized | include/msglayer.hpp:572-600 | for every nesting of layers: exactly `size()` bytes are written, they are the wire image, no other byte changes, the iterator is advanced by `size()` |
| MessageLayers.Serialize | src/server/remotepeer.cpp:182-200 | a buffer of `size()` bytes is filled completely, with the wire image |
| MessageLayers.DecodeHeader | include/msglayer.hpp:544-564 | result and error cases of decoding the four bytes, on either host |
| MessageLayers.ParseString | src/common/msglayer.cpp:64-90 | the decoding loop yields exactly the bytes of the window |
| MessageLayers.ParseUserId | include/neartypes.hpp:75-80 | the id denoted by eight wire bytes, on either host |
| MessageLayers.ParseMessage | src/common/neartypes.cpp:38-67 | message or error (undersized, wrong identifier) for every window on a memory block |
| MessageLayers.MessageRoundTrip | src/common/neartypes.cpp:38-67 | parsing a serialized message gives it back, all fields |
| MessageLayers.MessageReencodes | include/neartypes.hpp:193-213 | bytes parse as a message if and only if they are what is written for that message |
| MessageLayers.HeaderRoundTrip | include/msglayer.hpp:572-589 | a written header decodes to the size modulo 2^16 |
| MessageLayers.HeaderReencodes | include/msglayer.hpp:544-564 | four bytes decode to a size if and only if they are the header written for it |
| MessageLayers.MessageLayout | include/neartypes.hpp:193-213 | the serialized message byte by byte: 0x41 first, the id in bytes 1-4, recipient in 5-12, sender in 13-20, each least significant byte first, the text from byte 21 |
| MessageLayers.PacketLayout | include/msglayer.hpp:572-589 | the packet byte by byte: 0x80, low and high byte of the whole size, 0, payload |
| MessageLayers.HeaderDecodes | include/msglayer.hpp:544-564 | the bytes a, b, c, d decode to b + 256 c if a is 0x80 and d is 0, and to an invalid header otherwise |
| MessageLayers.MessageErrors | src/common/neartypes.cpp:38-49 | a payload is undersized if and only if it has fewer than 21 bytes, has an invalid header if and only if it is long enough and does not start with 0x41, and parses otherwise |
| Framing.JudgeExact | src/server/remotepeer.cpp:109-148 | a body of n bytes is announced by the four bytes 0x80, low and high byte of n + 4, 0, and by no others, if and only if n is at most 0x8FFF - 4 |
| Framing.JudgeTable | src/server/remotepeer.cpp:109-148 | what any four bytes are taken for, in numbers: refused, throwing, or a body of which length |
| Framing.EndingTable | src/clientnode/statemachine.cpp:479-545 | why a stream ends, from the four bytes behind its last packet |
| Framing.LengthErrorExact | src/server/remotepeer.cpp:109-148 | the allocation throws exactly for valid headers that announce fewer than four bytes |
| Framing.DeliverSplits | src/servnode/connected-client.cpp:167-238 | every stream is a list of well-formed packets and a rest that begins with no complete one |
| Framing.DeliverUnique | src/servnode/connected-client.cpp:167-238 | there is only one such splitting |
| Framing.FramingRoundTrip | src/servnode/connected-client.cpp:132-238 | a list of payloads survives framing if and only if each is at most 0x8FFF - 4 bytes |
| Framing.DeliverPrefix | src/servnode/connected-client.cpp:132-238 | on a prefix of any stream a prefix of its payloads is delivered, never a part of one |
| Framing.PrefixOfPackets | src/servnode/connected-client.cpp:132-238 | on a prefix of well-formed packets the reader never rejects |
| Framing.PumpThenFeed | src/servnode/connected-client.cpp:132-238 | bytes that arrive later do not change what has been done with earlier ones |
| Framing.ChunkInvariance | src/servnode/connected-client.cpp:132-238 | however a stream is cut into arrivals, exactly its payloads are delivered and the loop ends in the same phase |
| Framing.DeliverCut | src/servnode/connected-client.cpp:132-238 | packets read so far and a header behind them determine what the stream delivers and how it ends |
| ServerProtocol.HeardIsSlice | src/server/dispatcher.cpp:154-165 | what is received while an id is listed is a contiguous slice of the log |
| ServerRuns.StepKeeps | src/server/dispatcher.cpp:42-94 | every step keeps the invariant: one read, shut down exactly when failed, legal lives, sends equal to what was heard |
| ServerRuns.RelayIdentical | src/server/remotepeer.cpp:150-179 | the relayed frame is byte for byte the received one |
| ServerRuns.BroadcastOrder | src/server/dispatcher.cpp:114-165 | in every run each socket is handed exactly the slice of the log from accept to erasure |
| ServerRuns.CommonOrder | src/server/dispatcher.cpp:154-165 | any two peers are handed their common frames in the same order |
| ServerRuns.PeerLife | src/server/remotepeer.cpp:40-179 | in every run: ids are fresh, one error report at most, erasure once and only after it, at most one late frame, one read at most and exactly one before an error, socket shut down exactly when failed |
| ServerSteps.AcceptAdmits | src/server/dispatcher.cpp:127-150 | a client that connects is listed under an id never used before, with one read outstanding, and nobody else changes |
| ServerSteps.AcceptFails | src/server/dispatcher.cpp:119-125 | after a failed accept no step is possible, and peers and trace are as before |
| ServerSteps.ErrorReported | src/server/remotepeer.cpp:64-93 | a failed read or write, or a refused header, of a peer that has not reported adds exactly one connection error and shuts its socket down; a later one adds none |
| ServerSteps.ErrorsExact | src/server/remotepeer.cpp:64-179 | in every run a peer has been reported if and only if one of its operations has failed or one of its headers has been refused |
| ServerSteps.LeavesLast | src/server/remotepeer.cpp:56-62 | a peer leaves the list exactly when its last handler has run and has started no read |
| ServerSteps.OthersNotice | src/server/dispatcher.cpp:154-165 | a handler of one peer leaves all others as they are, but for the relayed frame that each gains |
| ServerSteps.SendsInOrder | src/server/dispatcher.cpp:159-164 | a broadcast goes to each listed peer once, in ascending order of the ids |
| ServerSteps.ClosedBody | src/server/remotepeer.cpp:109-148 | on a socket that is shut down a body can still arrive after its header exactly if it is empty |
| ServerSteps.RunStatus | src/server/dispatcher.cpp:119-125 | a run is stopped exactly if its last step is a failed accept, aborted exactly if it is a header below its own length |
| ServerSteps.IdsCounted | src/server/dispatcher.cpp:167-170 | in every run the ids given out are as many as the clients accepted |
| ServerSteps.WritesConserved | src/server/remotepeer.cpp:182-200 | in every run the frames handed to a socket are, as a multiset, those whose handlers have run and those whose handlers still wait |
| ServerDrain.StepDrains | src/server/remotepeer.cpp:150-208 | with all sockets shut down every handler lowers the measure, a late broadcast included |
| ServerDrain.DrainBound | src/server/remotepeer.cpp:150-208 | at most that many handlers run, in any order |
| ServerDrain.DrainTerminates | src/server/dispatcher.cpp:42-94 | when no handler is left the list is empty |
| ServerReader.ServerReads | src/server/remotepeer.cpp:95-179 | in every run, with other peers' work in between: the payloads received from a peer are those of the bytes read from it, a refused header ends the peer, a too small one the run, and every logged frame is a packet |
| Dispatcher.RemotePeer.constructor | src/server/remotepeer.cpp:28-38 | a new peer has one read outstanding and as many references as handlers |
| Dispatcher.RemotePeer.IncreaseRefCount | include/refcounter.hpp:167-174 | the count stays equal to the live references |
| Dispatcher.RemotePeer.DecreaseRefCount | include/refcounter.hpp:185-198 | the count stays equal to the live references; at zero, and only then, the peer is erased, once |
| Dispatcher.RemotePeer.CanDelete | src/server/remotepeer.cpp:56-62 | the deletion event is emitted only at count zero |
| Dispatcher.RemotePeer.StartReceive | src/server/remotepeer.cpp:40-53 | one header read more, and its temporary reference erases nobody |
| Dispatcher.RemotePeer.SendMessage | src/server/remotepeer.cpp:182-200 | one write of the serialized message more; no callback reaches the list |
| Dispatcher.RemotePeer.PostError | src/server/remotepeer.cpp:64-74 | the first error is reported and shuts the socket down, later ones do nothing |
| Dispatcher.RemotePeer.ShutdownConnection | src/server/remotepeer.cpp:202-208 | the socket is shut down |
| Dispatcher.RemotePeer.SendHandler | src/server/remotepeer.cpp:77-93 | an error is posted, success changes nothing |
| Dispatcher.RemotePeer.RcvHeaderHandler | src/server/remotepeer.cpp:95-148 | error, refused header, exception or body read, as the header buffer says |
| Dispatcher.RemotePeer.RcvBodyHandler | src/server/remotepeer.cpp:150-179 | the body is broadcast and a new read started, or the error posted |
| Dispatcher.DispatchingServer.HandleServerEvent | src/server/dispatcher.cpp:42-94 | unknown ids are ignored; broadcast, shutdown or erasure otherwise |
| Dispatcher.DispatchingServer.DistributeMessage | src/server/dispatcher.cpp:154-165 | every listed peer gains the frame, in list order, and no peer leaves the list during the loop |
| Dispatcher.DispatchingServer.GetNextConnectionId | src/server/dispatcher.cpp:167-170 | ids count up |
| Dispatcher.DispatchingServer.AcceptHandler | src/server/dispatcher.cpp:114-151 | a client is admitted under the next id, or the server is stopped with its list unchanged; the invariant holds in either case |
| Dispatcher.DispatchingServer.EndHandler | include/refcounter.hpp:71-126 | a returning handler drops its reference, and the peer leaves exactly if nothing else waits for it |
| Dispatcher.DispatchingServer.Dispatch | src/server/dispatcher.cpp:37-94 | every turn of the event loop, on objects, counts and callbacks, is the step of the state machine, keeps every count equal to the waiting handlers, stops at a failed accept, and leaves a listed peer whose operation failed marked and shut down |
| Dispatcher.DispatchingServer.Run | src/server/dispatcher.cpp:37-40 | whole runs of the objects are runs of the state machine |
| ConnectedClients.ConnectedClient.constructor | src/servnode/connected-client.cpp:111-124 | a new connection is the receive loop in its first state |
| ConnectedClients.ConnectedClient.SendPacket | include/servnode/connected-client.hpp:194-204 | the packet written is the wire image of the layer in its frame |
| ConnectedClients.ConnectedClient.SendHandler | src/servnode/connected-client.cpp:150-165 | disconnects exactly if the parent lives and the write was not complete |
| ConnectedClients.ConnectedClient.ReceiveHeaderHandler | src/servnode/connected-client.cpp:167-212 | nothing happens without a parent; otherwise the loop's step, with callback or escaping exception |
| ConnectedClients.ConnectedClient.ReceiveBodyHandler | src/servnode/connected-client.cpp:214-238 | nothing happens without a parent; otherwise the payload is handed on and the next read started |
| ConnectedClients.ConnectedClient.Arrive | src/servnode/connected-client.cpp:132-238 | filling the buffers with a piece of the stream and running the handlers is feeding it to the loop |
| ConnectedClients.Receive | src/servnode/connected-client.cpp:132-238 | a whole connection: exactly the payloads of the stream are handed on, a disconnection is reported once exactly if a header is refused |
| ClientRuns.StepReports | src/clientnode/statemachine.cpp:87-203 | every step, in every state: its reports continue the round properly and name the state the machine is then in; a payload becomes a message exactly when it should |
| ClientRuns.ReportOrder | src/clientnode/statemachine.cpp:87-203 | in every run requests and reports are a prefix of (Request (Disconnected or Connected Disconnected))*, so requests = disconnections + (1 if not waiting) |
| ClientRuns.SendConservation | src/clientnode/statemachine.cpp:108-155 | in every run, messages handed in = send reports + writes waiting, across states and disconnections |
| ClientRuns.SendReportsTell | src/clientnode/statemachine.cpp:443-476 | a step gives the send report of its write, true exactly on success, and a refusal at once without a connection |
| ClientRuns.EndpointRetry | src/clientnode/statemachine.cpp:207-328 | in every run every pass tries a prefix of the endpoints, each once, succeeds exactly with its last attempt, fails only at the last endpoint with an error other than an abort, and goes on as long as it is not over |
| ClientRuns.AttemptsBounded | src/clientnode/statemachine.cpp:267-328 | attempts in a run = endpoints resolved less those not tried, so every pass ends |
| ClientRuns.ConnectOutcome | src/clientnode/statemachine.cpp:267-328 | a connect handler changes state and starts reading or retrying as its pass stands |
| ClientRuns.ResilientDelivery | src/clientnode/statemachine.cpp:395-426 | in every run the application gets exactly the payloads that start with 0x41 and have 21 bytes, parsed, in order |
| ClientRuns.ReadChain | src/clientnode/statemachine.cpp:547-592 | no payload with a first byte, whatever it holds, breaks the read chain, in any state |
| ClientRuns.ConnectionEnds | src/clientnode/statemachine.cpp:342-392 | the machine leaves the connected state exactly on request or when a handler finds the connection broken |
| ClientRuns.NegotiatingEnds | src/clientnode/statemachine.cpp:157-191 | exactly when negotiating ends, and how |
| ClientRuns.WaitingEnds | include/clientnode/statemachine.hpp:257-261 | only a request wakes a waiting machine; late handlers do not |
| ClientSteps.StepSays | src/clientnode/statemachine.cpp:87-203 | everything a step tells the application, with the reason of each report, from the states before and after it; nothing is left unsaid |
| ClientSteps.BusyAnswered | src/clientnode/statemachine.cpp:193-203 | a connect request while negotiating or connected is answered with that state and the reason busy, and changes nothing |
| ClientSteps.RequestsAnswered | src/clientnode/statemachine.cpp:87-203 | in every run connect requests = accepted ones + busy reports, and the messages taken are those handed in, in order |
| ClientSteps.StepBegins | src/clientnode/statemachine.cpp:207-328 | every step starts exactly these operations, and touches no other, whatever the state |
| ClientSteps.HaltsExactly | src/clientnode/statemachine.cpp:395-426 | the one step whose outcome the source does not define: an empty payload while connected |
| ClientMachine.ClientnodeMachine.WaitingConnectRequest | src/clientnode/statemachine.cpp:77-143 | resolving is started and negotiating entered; a failure to start the event loop is reported at once |
| ClientMachine.ClientnodeMachine.NegotiatingConnectReport | src/clientnode/statemachine.cpp:157-180 | success is reported and enters the connected state, failure is reported and enters waiting |
| ClientMachine.ClientnodeMachine.ConnectedSendMsg | src/clientnode/statemachine.cpp:354-379 | the bytes handed to the socket are the packet of the message |
| ClientMachine.ClientnodeMachine.ConnectedRcvdMessage | src/clientnode/statemachine.cpp:395-426 | looks at the first byte, runs the byte-by-byte parser and gives the message on exactly when the payload is one; other payloads change nothing else |
| ClientMachine.ClientnodeMachine.ProcessUserRequest | include/clientnode/statemachine.hpp:281-287 | requests reach the reactions that the current state lists; a connect request that is not accepted is answered with the busy report of the state and changes nothing else |
| ClientMachine.ClientnodeMachine.ResolveHandler | src/clientnode/statemachine.cpp:207-262 | the first attempt, a report, or silence after an abort |
| ClientMachine.ClientnodeMachine.ConnectHandler | src/clientnode/statemachine.cpp:267-328 | success, the next endpoint, a report, or silence after an abort |
| ClientMachine.ClientnodeMachine.ReceiveSegmentationHeaderHandler | src/clientnode/statemachine.cpp:479-545 | the body read, or a disconnection for whatever is thrown |
| ClientMachine.ClientnodeMachine.ReceiveSegmentationBodyHandler | src/clientnode/statemachine.cpp:547-592 | the payload is reacted to and the next header read, or the error disconnects |
| ClientMachine.ClientnodeMachine.WriteHandler | src/clientnode/statemachine.cpp:443-476 | one send report, and a disconnection on error |
| ClientMachine.ClientnodeMachine.Run | include/clientnode/statemachine.hpp:318-324 | whole runs of the object are runs of the state machine |
| ClientReader.ClientReads | src/clientnode/statemachine.cpp:479-592 | in every run with one accepted request: one operation at most is outstanding, the application gets a prefix of the payloads of the bytes read, all of them while connected, and a refused header has ended the connection |
| EndToEnd.CodecBound | include/msglayer.hpp:544-589 | a serialized message is received as itself if and only if 25 plus the length of its text is at most 0x8FFF |
| EndToEnd.AcceptedReencodes | include/msglayer.hpp:544-589 | header and body are accepted as a message if and only if they are the bytes written for it |
| EndToEnd.ThreeReaders | src/clientnode/statemachine.cpp:479-592 | server, client and service node deliver the same payloads of the same bytes |
| EndToEnd.StartedPackets | src/clientnode/statemachine.cpp:354-379 | what a run of a client hands to its socket are the packets of the messages handed in while connected |
| EndToEnd.LogFaithful | src/server/remotepeer.cpp:109-200 | with clients that write such packets the frames of the server's log are exactly the packets of parsed messages, and each client's messages in it are the first ones it sent, in order |
| EndToEnd.SocketCarries | src/server/dispatcher.cpp:154-165 | the bytes handed to a peer's socket are the packets of the messages of its slice of the log |
| EndToEnd.ClientGets | src/clientnode/statemachine.cpp:395-426 | a client that reads a prefix of such a stream gives those messages to its application, in order, and all of them once it has read all |
| EndToEnd.GroupChat | src/server/dispatcher.cpp:114-165 | the whole system, runs of clients joined by a run of the server, any schedule: an application gets the messages of its slice of the common log, unchanged and without a gap, and each author's messages in the log are the first ones it handed in |
| PossibleChat.EchoPossible | src/clientnode/statemachine.cpp:207-592 | for every list of short messages there are runs of a client and of the server in which the client connects, sends them and gets exactly them back |

## Left out

* Sockets, resolver, acceptor and event loop of Boost.Asio: replaced by completions that the environment
  chooses. The bytes of a read that ends with an error, and the interleaving of overlapping writes, are not
  modelled.
* Threads, mutexes, `catchThread` and the destructor of the client machine that waits for its handlers: each
  handler and each user request is one atomic step.
* The reference counter of the client machine; the one of the server's peers is modelled. The assertion after the
  counter's action, and the width of the counter, are not.
* Overflow of `current_conn_id`, which would need 2^31 accepts.
* Copy assignment of `SerializedData` (`src/common/msglayer.cpp:48-62`), which sizes the new block from the old
  contents of its target: the traffic path only moves these objects.
* What happens after the client has looked at the first byte of an empty payload
  (`src/clientnode/statemachine.cpp:405`): the model stops there (`halted`).
* Stack unwinding after `std::length_error` has left a handler of the server or of a `ConnectedClient`.
* Characters of more than one byte in `StringwrapLayer`, and with them the alignment error of its decoder.
* Message ids, parsing of destination strings, logging, the user interface: easy, or input and output.
- ClientReader.ClientReads: one accepted request only, because leaving a connection does not cancel a name that is
  being resolved, so that a second request may find two read chains on one socket; it may start after any earlier
  connection whose handlers, other than writes, have run.
- Framing.DeliverCut: a body of no bytes may be announced and not yet be handled, hence the possible empty payload
  at the end in this member, in ServerReader.ServerReads and in EndToEnd.ThreeReaders.
