/** From one client through the server to every other: what the codec, the framing, the server's runs and
    the client's runs come to together.
 */
module EndToEnd {
  import opened Bytes
  import opened MessageLayers
  import opened Framing
  import opened Collecting
  import Server = ServerProtocol
  import Runs = ServerRuns
  import Reading = ServerReader
  import Client = ClientProtocol
  import Reports = ClientRuns
  import Receiving = ClientReader

  // ---------- one message ----------

  /** The size of the packet with this message is at most the limit of every receiver. */
  predicate Short(m: Message) { SEGMENTATION_HEADER + NEAR_HEADER + |m.text| <= MAX_PACKETSIZE }

  function MessagesIn(stream: seq<Byte>): seq<Message> {
    Collect(Deliver(stream).payloads, Reports.MessagesOf)
  }

  lemma ParsesAsMessage(m: Message)
    ensures Reports.MessagesOf(MessageWire(m)) == [m]
  {
    MessageRoundTrip(m);
  }

  lemma MessageFound(b: seq<Byte>, m: Message)
    ensures Reports.MessagesOf(b) == [m] <==> b == MessageWire(m)
  {
    MessageReencodes(b, m);
  }

  lemma {:induction false} FoundSomewhere(payloads: seq<seq<Byte>>, m: Message)
    requires AllFit(payloads) && m in Collect(payloads, Reports.MessagesOf)
    ensures Short(m) && Packets(payloads) != []
    decreases |payloads|
  {
    var b := payloads[0];
    if m in Reports.MessagesOf(b) {
      MessageFound(b, m);
    } else {
      FoundSomewhere(payloads[1..], m);
    }
  }

  /** A message that a client serializes is received as that one message exactly when its packet, 25 bytes
      and the text, is no longer than 0x8FFF. */
  lemma CodecBound(m: Message)
    ensures MessagesIn(Packet(MessageWire(m))) == [m] <==> 25 + |m.text| <= 0x8FFF
    ensures Short(m) <==> 25 + |m.text| <= 0x8FFF
  {
    var stream := Packet(MessageWire(m));
    if Short(m) {
      assert Packets([MessageWire(m)]) == stream + Packets([MessageWire(m)][1..]);
      assert Packets([MessageWire(m)]) == stream;
      FramingRoundTrip([MessageWire(m)]);
      CollectOne(MessageWire(m), Reports.MessagesOf);
      ParsesAsMessage(m);
    }
    if MessagesIn(stream) == [m] {
      DeliverSplits(stream);
      FoundSomewhere(Deliver(stream).payloads, m);
    }
  }

  /** A header and a body are accepted as a message exactly when they are what a sender writes for it. */
  lemma AcceptedReencodes(h: seq<Byte>, body: seq<Byte>, m: Message)
    requires |h| == SEGMENTATION_HEADER
    ensures Judge(h) == Body(|body|) && MessageOf(body) == Ok(m) <==> h + body == Packet(MessageWire(m)) && Short(m)
  {
    JudgeByHeader(h, |body|);
    MessageReencodes(body, m);
    assert (h + body)[..SEGMENTATION_HEADER] == h && (h + body)[SEGMENTATION_HEADER..] == body;
    var p := Packet(MessageWire(m));
    assert p[..SEGMENTATION_HEADER] == PacketHeader(|MessageWire(m)| + SEGMENTATION_HEADER);
    assert p[SEGMENTATION_HEADER..] == MessageWire(m);
  }

  // ---------- three readers, one meaning ----------

  /** The same bytes, read by the server from a peer in any of its runs, by a connected client in a run of
      its own, and by a connection of the service node in any pieces: all deliver the same payloads. Only a
      body of no bytes may be announced and still be due. */
  lemma ThreeReaders(steps: seq<Server.Step>, id: int, csteps: seq<Client.Step>, chunks: seq<seq<Byte>>, stream: seq<Byte>)
    requires Server.Possible(Server.INITIAL, steps) && Reading.Consumed(Server.INITIAL, steps, id) == stream
    requires Client.Possible(Client.INITIAL, csteps) && Receiving.Requests(Client.INITIAL, csteps) <= 1
    requires Receiving.Consumed(Client.INITIAL, csteps) == stream && Joined(chunks) == stream
    ensures var payloads := Deliver(stream).payloads;
            FeedAll(FRESH, chunks).delivered == payloads &&
            AlmostAll(Reading.From(Server.Run(Server.INITIAL, steps).trace, id), payloads) &&
            var c := Client.Run(Client.INITIAL, csteps);
            Receiving.Given(c) <= payloads &&
            (c.state == Client.Connected && !c.halted ==> AlmostAll(Receiving.Given(c), payloads))
  {
    ChunkInvariance(chunks);
    Reading.ServerReads(steps, id);
    Receiving.ClientReads(Client.INITIAL, csteps);
    var c := Client.Run(Client.INITIAL, csteps);
    var given :| Receiving.Outcome(Client.INITIAL, c, Deliver(stream), given);
    assert Receiving.Given(c) == given;
  }

  ghost predicate AlmostAll(got: seq<seq<Byte>>, payloads: seq<seq<Byte>>) {
    got == payloads || got + [[]] == payloads
  }

  // ---------- what a client hands to its socket ----------

  function Wires(ms: seq<Message>): seq<seq<Byte>> {
    seq(|ms|, i requires 0 <= i < |ms| => MessageWire(ms[i]))
  }

  /** The messages handed in while connected. */
  function Sent(c: Client.Client, steps: seq<Client.Step>): seq<Message>
    requires Client.Possible(c, steps)
    decreases |steps|
  {
    if steps == [] then []
    else (if steps[0].UserSend? && c.state == Client.Connected then [steps[0].message] else []) +
         Sent(Client.Next(c, steps[0]), steps[1..])
  }

  /** The frames of the writes that a run starts, in their order. */
  function Started(c: Client.Client, steps: seq<Client.Step>): seq<Byte>
    requires Client.Possible(c, steps)
    decreases |steps|
  {
    if steps == [] then [] else StartedBy(c, steps[0]) + Started(Client.Next(c, steps[0]), steps[1..])
  }

  function StartedBy(c: Client.Client, step: Client.Step): seq<Byte>
    requires Client.Enabled(c, step)
  {
    var before := if step.Complete? then |c.pending| - 1 else |c.pending|;
    var after := Client.Next(c, step).pending;
    if before < |after| && after[before].Write? then after[before].frame else []
  }

  lemma {:induction false} StartedPackets(c: Client.Client, steps: seq<Client.Step>)
    requires Client.Possible(c, steps)
    ensures Started(c, steps) == Packets(Wires(Sent(c, steps)))
    decreases |steps|
  {
    if steps != [] {
      var d := Client.Next(c, steps[0]);
      StartedPackets(d, steps[1..]);
      StepStarts(c, steps[0]);
      var later := Sent(d, steps[1..]);
      if steps[0].UserSend? && c.state == Client.Connected {
        WiresCons(steps[0].message, later);
      } else {
        assert Sent(c, steps) == later;
      }
    }
  }

  lemma WiresCons(m: Message, ms: seq<Message>)
    ensures Packets(Wires([m] + ms)) == Packet(MessageWire(m)) + Packets(Wires(ms))
  {
    assert Wires([m] + ms) == [MessageWire(m)] + Wires(ms);
    PacketsCons(MessageWire(m), Wires(ms));
  }

  lemma StepStarts(c: Client.Client, step: Client.Step)
    requires Client.Enabled(c, step)
    ensures StartedBy(c, step) == if step.UserSend? && c.state == Client.Connected then Packet(MessageWire(step.message)) else []
  {}

  // ---------- the log of the server, as messages ----------

  datatype Entry = Entry(author: int, message: Message)

  /** What the server has received, parsed. */
  function Log(trace: seq<Server.Event>): seq<Entry> {
    if trace == [] then []
    else
      var e := trace[|trace| - 1];
      Log(trace[..|trace| - 1]) +
      if e.Received? && |e.frame| >= SEGMENTATION_HEADER && MessageOf(e.frame[SEGMENTATION_HEADER..]).Ok?
      then [Entry(e.id, MessageOf(e.frame[SEGMENTATION_HEADER..]).value)] else []
  }

  function By(log: seq<Entry>, author: int): seq<Message> {
    if log == [] then []
    else
      var e := log[|log| - 1];
      By(log[..|log| - 1], author) + if e.author == author then [e.message] else []
  }

  function Texts(log: seq<Entry>): (ms: seq<Message>)
    ensures |ms| == |log|
  {
    seq(|log|, i requires 0 <= i < |log| => log[i].message)
  }

  function Frames(ms: seq<Message>): (fs: seq<seq<Byte>>)
    ensures |fs| == |ms|
  {
    seq(|ms|, i requires 0 <= i < |ms| => Packet(MessageWire(ms[i])))
  }

  lemma BySnoc(log: seq<Entry>, e: Entry, author: int)
    ensures By(log + [e], author) == if e.author == author then By(log, author) + [e.message] else By(log, author)
  {
    assert (log + [e])[..|log|] == log;
  }

  lemma FramesSnoc(log: seq<Entry>, e: Entry)
    ensures Frames(Texts(log + [e])) == Frames(Texts(log)) + [Packet(MessageWire(e.message))]
  {}

  lemma WiresSnoc(ms: seq<Message>, m: Message)
    ensures Wires(ms + [m]) == Wires(ms) + [MessageWire(m)]
  {}

  /** What each peer has contributed to the trace are some first messages of its list. */
  ghost predicate Authored(trace: seq<Server.Event>, sent: int -> seq<Message>) {
    forall i :: Reading.From(trace, i) <= Wires(sent(i))
  }

  lemma AuthoredBefore(trace: seq<Server.Event>, e: Server.Event, sent: int -> seq<Message>)
    requires Authored(trace + [e], sent) && Reading.Logged(trace + [e])
    ensures Authored(trace, sent) && Reading.Logged(trace)
  {
    forall i ensures Reading.From(trace, i) <= Wires(sent(i)) {
      Reading.FromOne(trace, e, i);
    }
    forall k | 0 <= k < |trace| && trace[k].Received? ensures Reading.IsPacket(trace[k].frame) {
      assert (trace + [e])[k] == trace[k];
    }
  }

  /** One more event: an entry of the log when it is a received packet, and nothing otherwise. */
  lemma LogNext(before: seq<Server.Event>, e: Server.Event, sent: int -> seq<Message>) returns (more: seq<Entry>)
    requires Authored(before + [e], sent) && Reading.Logged(before + [e])
    ensures Log(before + [e]) == Log(before) + more && e.Received? == (|more| == 1) && |more| <= 1
    ensures e.Received? ==>
              more[0].author == e.id && e.frame == Packet(MessageWire(more[0].message)) &&
              Reading.PayloadIn(e, e.id) == [MessageWire(more[0].message)]
  {
    assert (before + [e])[..|before|] == before;
    more := [];
    if e.Received? {
      assert (before + [e])[|before|] == e;
      LastIsWire(before, e, sent);
      var m :| e.frame[SEGMENTATION_HEADER..] == MessageWire(m);
      MessageRoundTrip(m);
      more := [Entry(e.id, m)];
    }
  }

  /** The log, parsed, loses nothing: its frames are the packets of its messages. */
  lemma {:induction false} LogComplete(trace: seq<Server.Event>, sent: int -> seq<Message>)
    requires Authored(trace, sent) && Reading.Logged(trace)
    ensures Server.Frames(trace) == Frames(Texts(Log(trace)))
  {
    if trace != [] {
      var before, e := trace[..|trace| - 1], trace[|trace| - 1];
      assert trace == before + [e];
      AuthoredBefore(before, e, sent);
      LogComplete(before, sent);
      var more := LogNext(before, e, sent);
      if e.Received? {
        FramesSnoc(Log(before), more[0]);
        assert more == [more[0]];
      }
    }
  }

  lemma AuthorNext(before: seq<Server.Event>, e: Server.Event, entry: Entry, i: int)
    requires Wires(By(Log(before), i)) == Reading.From(before, i)
    requires entry.author == e.id && Reading.PayloadIn(e, e.id) == [MessageWire(entry.message)]
    ensures Wires(By(Log(before) + [entry], i)) == Reading.From(before + [e], i)
  {
    Reading.FromOne(before, e, i);
    BySnoc(Log(before), entry, i);
    WiresSnoc(By(Log(before), i), entry.message);
  }

  lemma AuthorsNext(before: seq<Server.Event>, e: Server.Event, sent: int -> seq<Message>, i: int)
    requires Authored(before + [e], sent) && Reading.Logged(before + [e])
    requires Wires(By(Log(before), i)) == Reading.From(before, i)
    ensures Wires(By(Log(before + [e]), i)) == Reading.From(before + [e], i)
  {
    var more := LogNext(before, e, sent);
    if e.Received? {
      assert more == [more[0]];
      AuthorNext(before, e, more[0], i);
    } else {
      assert Log(before) + more == Log(before);
      Reading.FromOne(before, e, i);
    }
  }

  /** The messages of each author in the log are the payloads received from it. */
  lemma {:induction false} LogAuthors(trace: seq<Server.Event>, sent: int -> seq<Message>, i: int)
    requires Authored(trace, sent) && Reading.Logged(trace)
    ensures Wires(By(Log(trace), i)) == Reading.From(trace, i)
  {
    if trace != [] {
      var before, e := trace[..|trace| - 1], trace[|trace| - 1];
      assert trace == before + [e];
      AuthoredBefore(before, e, sent);
      LogAuthors(before, sent, i);
      AuthorsNext(before, e, sent, i);
    }
  }

  lemma LastIsWire(before: seq<Server.Event>, e: Server.Event, sent: int -> seq<Message>)
    requires Authored(before + [e], sent) && e.Received? && Reading.IsPacket(e.frame)
    ensures exists m :: e.frame[SEGMENTATION_HEADER..] == MessageWire(m)
  {
    Reading.FromOne(before, e, e.id);
    var n := |Reading.From(before, e.id)|;
    assert Reading.From(before + [e], e.id)[n] == e.frame[SEGMENTATION_HEADER..];
    assert Wires(sent(e.id))[n] == MessageWire(sent(e.id)[n]);
  }

  // ---------- streams ----------

  ghost predicate AllShort(ms: seq<Message>) { forall k :: 0 <= k < |ms| ==> Short(ms[k]) }

  lemma ShortFit(ms: seq<Message>)
    requires AllShort(ms)
    ensures AllFit(Wires(ms))
  {}

  lemma PrefixDelivers(ps: seq<seq<Byte>>, got: seq<Byte>)
    requires AllFit(ps) && got <= Packets(ps)
    ensures Deliver(got).payloads <= ps
  {
    assert got == Packets(ps)[..|got|];
    PrefixOfPackets(ps, |got|);
  }

  lemma WiresInjective(a: seq<Message>, b: seq<Message>)
    requires Wires(a) <= Wires(b)
    ensures a <= b
  {
    forall k | 0 <= k < |a|
      ensures a[k] == b[k]
    {
      assert Wires(a)[k] == Wires(b)[k];
      MessageRoundTrip(a[k]);
      MessageRoundTrip(b[k]);
    }
  }

  lemma {:induction false} WiresParse(ms: seq<Message>)
    ensures Collect(Wires(ms), Reports.MessagesOf) == ms
  {
    if ms != [] {
      assert Wires(ms)[1..] == Wires(ms[1..]);
      WiresParse(ms[1..]);
      ParsesAsMessage(ms[0]);
    }
  }

  lemma {:induction false} JoinedFrames(ms: seq<Message>)
    ensures Joined(Frames(ms)) == Packets(Wires(ms))
  {
    if ms != [] {
      assert Frames(ms)[1..] == Frames(ms[1..]) && Wires(ms)[1..] == Wires(ms[1..]);
      JoinedFrames(ms[1..]);
    }
  }

  // ---------- the sending side ----------

  /** Each peer reads the beginning of what its client writes. */
  ghost predicate Fed(steps: seq<Server.Step>, sent: int -> seq<Message>)
    requires Server.Possible(Server.INITIAL, steps)
  {
    forall i :: AllShort(sent(i)) && Reading.Consumed(Server.INITIAL, steps, i) <= Packets(Wires(sent(i)))
  }

  lemma FedAuthored(steps: seq<Server.Step>, sent: int -> seq<Message>)
    requires Server.Possible(Server.INITIAL, steps) && Fed(steps, sent)
    ensures var t := Server.Run(Server.INITIAL, steps).trace; Authored(t, sent) && Reading.Logged(t)
  {
    var t := Server.Run(Server.INITIAL, steps).trace;
    Reading.ServerReads(steps, 0);
    forall i
      ensures Reading.From(t, i) <= Wires(sent(i))
    {
      var got := Reading.Consumed(Server.INITIAL, steps, i);
      Reading.ServerReads(steps, i);
      ShortFit(sent(i));
      PrefixDelivers(Wires(sent(i)), got);
      assert Reading.From(t, i) <= Deliver(got).payloads;
    }
  }

  /** The log of every run with such clients: no message lost, changed or made up, and each author's
      messages in the order in which they were sent. */
  lemma LogFaithful(steps: seq<Server.Step>, sent: int -> seq<Message>)
    requires Server.Possible(Server.INITIAL, steps) && Fed(steps, sent)
    ensures var t := Server.Run(Server.INITIAL, steps).trace;
            Server.Frames(t) == Frames(Texts(Log(t))) && forall i :: By(Log(t), i) <= sent(i)
  {
    var t := Server.Run(Server.INITIAL, steps).trace;
    FedAuthored(steps, sent);
    LogComplete(t, sent);
    forall i
      ensures By(Log(t), i) <= sent(i)
    {
      LogAuthors(t, sent, i);
      WiresInjective(By(Log(t), i), sent(i));
    }
  }

  // ---------- the receiving side ----------

  /** The messages that a listed peer is due: the log from its accept to its erasure. */
  function Due(trace: seq<Server.Event>, id: int): seq<Message> {
    var texts := Texts(Log(trace));
    var from, to := Server.JoinedAt(trace, id), Server.LeftAt(trace, id);
    if Server.LifeOf(trace, id).Unborn? || !(from <= to <= |texts|) then [] else texts[from..to]
  }

  lemma ShortLog(log: seq<Entry>, sent: int -> seq<Message>)
    requires forall i :: By(log, i) <= sent(i) && AllShort(sent(i))
    ensures AllShort(Texts(log))
  {
    if log != [] {
      var before, e := log[..|log| - 1], log[|log| - 1];
      assert log == before + [e];
      forall i
        ensures By(before, i) <= sent(i)
      {
        BySnoc(before, e, i);
      }
      ShortLog(before, sent);
      BySnoc(before, e, e.author);
      assert sent(e.author)[|By(before, e.author)|] == e.message;
      assert Texts(log) == Texts(before) + [e.message];
    }
  }

  lemma FramesSlice(ms: seq<Message>, from: nat, to: nat)
    requires from <= to <= |ms|
    ensures Frames(ms)[from..to] == Frames(ms[from..to])
  {}

  lemma DueFrames(t: seq<Server.Event>, id: int)
    requires Server.Frames(t) == Frames(Texts(Log(t)))
    requires var from, to := Server.JoinedAt(t, id), Server.LeftAt(t, id);
             from <= to <= |Server.Frames(t)| &&
             Server.SentTo(t, id) == if Server.LifeOf(t, id).Unborn? then [] else Server.Frames(t)[from..to]
    ensures Server.SentTo(t, id) == Frames(Due(t, id))
  {
    FramesSlice(Texts(Log(t)), Server.JoinedAt(t, id), Server.LeftAt(t, id));
  }

  lemma DueShort(t: seq<Server.Event>, sent: int -> seq<Message>, id: int)
    requires forall i :: By(Log(t), i) <= sent(i) && AllShort(sent(i))
    ensures AllShort(Due(t, id))
  {
    ShortLog(Log(t), sent);
  }

  lemma SocketFrames(steps: seq<Server.Step>, id: int)
    requires Server.Possible(Server.INITIAL, steps)
    requires var t := Server.Run(Server.INITIAL, steps).trace; Server.Frames(t) == Frames(Texts(Log(t)))
    ensures var t := Server.Run(Server.INITIAL, steps).trace; Server.SentTo(t, id) == Frames(Due(t, id))
  {
    Runs.BroadcastOrder(steps, id);
    DueFrames(Server.Run(Server.INITIAL, steps).trace, id);
  }

  /** The bytes handed to the socket of a peer are the packets of the messages it is due. */
  lemma SocketCarries(steps: seq<Server.Step>, sent: int -> seq<Message>, id: int)
    requires Server.Possible(Server.INITIAL, steps) && Fed(steps, sent)
    ensures var t := Server.Run(Server.INITIAL, steps).trace;
            Joined(Server.SentTo(t, id)) == Packets(Wires(Due(t, id))) && AllShort(Due(t, id))
  {
    var t := Server.Run(Server.INITIAL, steps).trace;
    LogFaithful(steps, sent);
    SocketFrames(steps, id);
    JoinedFrames(Due(t, id));
    DueShort(t, sent, id);
  }

  /** Payloads that begin a list of messages parse as the beginning of that list. */
  lemma GivenParse(given: seq<seq<Byte>>, ms: seq<Message>)
    requires given <= Wires(ms)
    ensures Collect(given, Reports.MessagesOf) == ms[..|given|]
  {
    assert given == Wires(ms[..|given|]);
    WiresParse(ms[..|given|]);
  }

  lemma WireNotEmpty(ms: seq<Message>, k: nat)
    requires k < |ms|
    ensures Wires(ms)[k] != []
  {}

  lemma NoEmptyWire(ms: seq<Message>, given: seq<seq<Byte>>)
    requires given == Wires(ms) || given + [[]] == Wires(ms)
    ensures given == Wires(ms)
  {
    if |given| < |ms| {
      WireNotEmpty(ms, |given|);
    }
  }

  /** What the client is given comes from the beginning of the messages; all of it, from all of them. */
  lemma GivenOfStream(c: Client.Client, got: seq<Byte>, ms: seq<Message>, given: seq<seq<Byte>>)
    requires AllShort(ms) && got <= Packets(Wires(ms))
    requires Receiving.Outcome(Client.INITIAL, c, Deliver(got), given)
    ensures given <= Wires(ms) && Receiving.Given(c) == given
    ensures c.state == Client.Connected && !c.halted && got == Packets(Wires(ms)) ==> given == Wires(ms)
  {
    ShortFit(ms);
    PrefixDelivers(Wires(ms), got);
    if c.state == Client.Connected && !c.halted && got == Packets(Wires(ms)) {
      FramingRoundTrip(Wires(ms));
      NoEmptyWire(ms, given);
    }
  }

  /** A client that reads the beginning of a stream of message packets is given those messages, in order. */
  lemma ClientGets(csteps: seq<Client.Step>, ms: seq<Message>)
    requires Client.Possible(Client.INITIAL, csteps) && Receiving.Requests(Client.INITIAL, csteps) <= 1
    requires AllShort(ms) && Receiving.Consumed(Client.INITIAL, csteps) <= Packets(Wires(ms))
    ensures var c := Client.Run(Client.INITIAL, csteps);
            var messages := Collect(c.trace, Reports.ReceivedOf);
            messages <= ms &&
            (c.state == Client.Connected && !c.halted && Receiving.Consumed(Client.INITIAL, csteps) == Packets(Wires(ms)) ==>
               messages == ms)
  {
    var c, got := Client.Run(Client.INITIAL, csteps), Receiving.Consumed(Client.INITIAL, csteps);
    Receiving.ClientReads(Client.INITIAL, csteps);
    Reports.ResilientDelivery(csteps);
    var given :| Receiving.Outcome(Client.INITIAL, c, Deliver(got), given);
    GivenOfStream(c, got, ms, given);
    GivenParse(given, ms);
  }

  /** What is sent, relayed and received, for lists of messages whose packets the peers read from. */
  lemma Delivered(steps: seq<Server.Step>, sent: int -> seq<Message>, id: int, csteps: seq<Client.Step>)
    requires Server.Possible(Server.INITIAL, steps) && Fed(steps, sent)
    requires Client.Possible(Client.INITIAL, csteps) && Receiving.Requests(Client.INITIAL, csteps) <= 1
    requires Receiving.Consumed(Client.INITIAL, csteps) <= Joined(Server.SentTo(Server.Run(Server.INITIAL, steps).trace, id))
    ensures var t := Server.Run(Server.INITIAL, steps).trace; var c := Client.Run(Client.INITIAL, csteps);
            var messages := Collect(c.trace, Reports.ReceivedOf);
            (forall i :: By(Log(t), i) <= sent(i)) &&
            messages <= Due(t, id) &&
            (c.state == Client.Connected && !c.halted && Receiving.Consumed(Client.INITIAL, csteps) == Joined(Server.SentTo(t, id)) ==>
               messages == Due(t, id))
  {
    LogFaithful(steps, sent);
    SocketCarries(steps, sent, id);
    ClientGets(csteps, Due(Server.Run(Server.INITIAL, steps).trace, id));
  }

  // ---------- the whole system ----------

  /** Behind the peer `i` is a client that runs `speakers(i)`, connects once and sends only short messages;
      the server has read the beginning of the bytes that this client has handed to its socket. */
  ghost predicate Speaking(steps: seq<Server.Step>, speakers: int -> seq<Client.Step>)
    requires Server.Possible(Server.INITIAL, steps)
  {
    forall i :: SpeaksOver(speakers(i), Reading.Consumed(Server.INITIAL, steps, i))
  }

  ghost predicate SpeaksOver(csteps: seq<Client.Step>, stream: seq<Byte>) {
    && Client.Possible(Client.INITIAL, csteps) && Receiving.Requests(Client.INITIAL, csteps) <= 1
    && AllShort(Sent(Client.INITIAL, csteps)) && stream <= Started(Client.INITIAL, csteps)
  }

  /** The messages that the client behind a peer has sent. */
  function Said(csteps: seq<Client.Step>): seq<Message> {
    if Client.Possible(Client.INITIAL, csteps) then Sent(Client.INITIAL, csteps) else []
  }

  lemma SpeakingFeeds(steps: seq<Server.Step>, speakers: int -> seq<Client.Step>)
    requires Server.Possible(Server.INITIAL, steps) && Speaking(steps, speakers)
    ensures Fed(steps, (i: int) => Said(speakers(i)))
  {
    forall i
      ensures AllShort(Said(speakers(i))) && Reading.Consumed(Server.INITIAL, steps, i) <= Packets(Wires(Said(speakers(i))))
    {
      assert SpeaksOver(speakers(i), Reading.Consumed(Server.INITIAL, steps, i));
      StartedPackets(Client.INITIAL, speakers(i));
    }
  }

  /** Clients, server, clients: whatever the clients send and however all of their and the server's handlers
      are scheduled, a client's application gets messages that were sent, unchanged, in one order common to
      all clients, without a gap from the moment the server accepted it; and it has got all of them when it
      has read what the server has handed to its socket. */
  lemma GroupChat(steps: seq<Server.Step>, speakers: int -> seq<Client.Step>, id: int, csteps: seq<Client.Step>)
    requires Server.Possible(Server.INITIAL, steps) && Speaking(steps, speakers)
    requires Client.Possible(Client.INITIAL, csteps) && Receiving.Requests(Client.INITIAL, csteps) <= 1
    requires Receiving.Consumed(Client.INITIAL, csteps) <= Joined(Server.SentTo(Server.Run(Server.INITIAL, steps).trace, id))
    ensures var t := Server.Run(Server.INITIAL, steps).trace; var c := Client.Run(Client.INITIAL, csteps);
            var messages := Collect(c.trace, Reports.ReceivedOf);
            (forall i :: By(Log(t), i) <= Said(speakers(i))) &&
            messages <= Due(t, id) &&
            (c.state == Client.Connected && !c.halted && Receiving.Consumed(Client.INITIAL, csteps) == Joined(Server.SentTo(t, id)) ==>
               messages == Due(t, id))
  {
    var said := (i: int) => Said(speakers(i));
    SpeakingFeeds(steps, speakers);
    Delivered(steps, said, id, csteps);
    var log := Log(Server.Run(Server.INITIAL, steps).trace);
    forall i
      ensures By(log, i) <= Said(speakers(i))
    {
      assert By(log, i) <= said(i);
    }
  }
}
