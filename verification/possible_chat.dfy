/** The system can do what it is for: for every list of short messages there are runs of a client and of the
    server in which the client connects, sends them all, and gets them all back.
 */
module PossibleChat {
  import opened Bytes
  import opened MessageLayers
  import opened Framing
  import opened Collecting
  import opened EndToEnd
  import Server = ServerProtocol
  import Runs = ServerRuns
  import Steps = ServerSteps
  import Reader = ServerReader
  import Client = ClientProtocol
  import Reports = ClientRuns
  import Receiver = ClientReader

  // ---------- the server hears one client ----------

  /** The reads of these packets, when the read is the j-th handler and each broadcast adds one before it. */
  function Hearing(j: nat, ps: seq<seq<Byte>>): seq<Server.Step>
    decreases |ps|
  {
    if ps == [] then []
    else
      [Server.Complete(1, j, Server.Success(PacketHeader(|ps[0]| + SEGMENTATION_HEADER)))] +
      ([Server.Complete(1, j, Server.Success(ps[0]))] + Hearing(j + 1, ps[1..]))
  }

  ghost predicate OneClient(s: Server.Server, j: nat) {
    && Runs.Inv(s) && s.status == Server.Running && s.lastId == 1 && s.peers.Keys == {1}
    && !s.peers[1].failed && !s.peers[1].closed
    && |s.peers[1].pending| == j + 1 && s.peers[1].pending[j] == Server.HeaderRead(true)
  }

  ghost predicate OneBody(s: Server.Server, j: nat, n: nat) {
    && Runs.Inv(s) && s.status == Server.Running && s.lastId == 1 && s.peers.Keys == {1}
    && !s.peers[1].failed && !s.peers[1].closed
    && |s.peers[1].pending| == j + 1
    && s.peers[1].pending[j] == Server.BodyRead(PacketHeader(n + SEGMENTATION_HEADER), n, true)
  }

  lemma HeaderHeard(s: Server.Server, j: nat, p: seq<Byte>)
    requires OneClient(s, j) && Fits(p)
    ensures var step := Server.Complete(1, j, Server.Success(PacketHeader(|p| + SEGMENTATION_HEADER)));
            Server.Enabled(s, step) && OneBody(Server.Next(s, step), j, |p|) && Server.Next(s, step).trace == s.trace
  {
    var h := PacketHeader(|p| + SEGMENTATION_HEADER);
    JudgeByHeader(h, |p|);
    Runs.StepKeeps(s, Server.Complete(1, j, Server.Success(h)));
  }

  lemma BodyHeard(s: Server.Server, j: nat, p: seq<Byte>)
    requires OneBody(s, j, |p|)
    ensures var step := Server.Complete(1, j, Server.Success(p));
            Server.Enabled(s, step) && OneClient(Server.Next(s, step), j + 1) &&
            Server.SentTo(Server.Next(s, step).trace, 1) == Server.SentTo(s.trace, 1) + [Packet(p)]
  {
    var step := Server.Complete(1, j, Server.Success(p));
    Runs.StepKeeps(s, step);
    Runs.RelayedPeers(s, 1, j, p);
    Steps.RelaySent(s, 1, j, p, 1);
  }

  lemma {:induction false} HearsAll(s: Server.Server, j: nat, ps: seq<seq<Byte>>)
    requires OneClient(s, j) && AllFit(ps)
    ensures Server.Possible(s, Hearing(j, ps)) && Reader.Consumed(s, Hearing(j, ps), 1) == Packets(ps)
    ensures Server.SentTo(Server.Run(s, Hearing(j, ps)).trace, 1) == Server.SentTo(s.trace, 1) + ImagesOf(ps)
    ensures forall i :: i != 1 ==> Reader.Consumed(s, Hearing(j, ps), i) == []
    decreases |ps|
  {
    if ps != [] {
      var p, more := ps[0], Hearing(j + 1, ps[1..]);
      var first := Server.Complete(1, j, Server.Success(PacketHeader(|p| + SEGMENTATION_HEADER)));
      var second := Server.Complete(1, j, Server.Success(p));
      HeaderHeard(s, j, p);
      var t := Server.Next(s, first);
      BodyHeard(t, j, p);
      var u := Server.Next(t, second);
      HearsAll(u, j + 1, ps[1..]);
      ServerFirst(t, second, more);
      ServerFirst(s, first, [second] + more);
      Associative(PacketHeader(|p| + SEGMENTATION_HEADER), p, Packets(ps[1..]));
      Associative(Server.SentTo(s.trace, 1), [Packet(p)], ImagesOf(ps[1..]));
    }
  }

  function ImagesOf(ps: seq<seq<Byte>>): seq<seq<Byte>> {
    if ps == [] then [] else [Packet(ps[0])] + ImagesOf(ps[1..])
  }

  lemma ServerFirst(s: Server.Server, step: Server.Step, more: seq<Server.Step>)
    requires Server.Enabled(s, step) && Server.Possible(Server.Next(s, step), more)
    ensures Server.Possible(s, [step] + more)
    ensures Server.Run(s, [step] + more) == Server.Run(Server.Next(s, step), more)
    ensures forall id :: Reader.Consumed(s, [step] + more, id) ==
                         Reader.ReadBy(s, step, id) + Reader.Consumed(Server.Next(s, step), more, id)
  {
    assert ([step] + more)[1..] == more;
  }

  /** The server accepts one client and hears everything. */
  lemma ServerHears(ps: seq<seq<Byte>>)
    requires AllFit(ps)
    ensures var steps := [Server.Accept(true)] + Hearing(0, ps);
            Server.Possible(Server.INITIAL, steps) && Reader.Consumed(Server.INITIAL, steps, 1) == Packets(ps) &&
            Server.SentTo(Server.Run(Server.INITIAL, steps).trace, 1) == ImagesOf(ps) &&
            forall i :: i != 1 ==> Reader.Consumed(Server.INITIAL, steps, i) == []
  {
    Runs.InitialInv();
    Runs.StepKeeps(Server.INITIAL, Server.Accept(true));
    var s := Server.Next(Server.INITIAL, Server.Accept(true));
    assert Server.SentTo(s.trace, 1) == [];
    HearsAll(s, 0, ps);
    ServerFirst(Server.INITIAL, Server.Accept(true), Hearing(0, ps));
  }

  // ---------- a client that says everything, and then hears ----------

  /** The messages to send, and then the packets to read. The read is the k-th of n + 1 handlers. */
  function Talking(ms: seq<Message>, k: nat, n: nat, ps: seq<seq<Byte>>): seq<Client.Step>
    decreases |ms|, |ps|
  {
    if ms != [] then [Client.UserSend(ms[0])] + Talking(ms[1..], k, n + 1, ps)
    else if ps != [] then
      [Client.Complete(k, Client.Ended(Client.NoError, PacketHeader(|ps[0]| + SEGMENTATION_HEADER)))] +
      ([Client.Complete(n, Client.Ended(Client.NoError, ps[0]))] + Talking([], n, n, ps[1..]))
    else []
  }

  ghost predicate Ready(c: Client.Client, k: nat, n: nat) {
    c.state == Client.Connected && !c.halted && k <= n && |c.pending| == n + 1 && c.pending[k] == Client.HeaderRead
  }

  lemma ClientFirst(c: Client.Client, step: Client.Step, more: seq<Client.Step>)
    requires Client.Enabled(c, step) && Client.Possible(Client.Next(c, step), more)
    ensures Client.Possible(c, [step] + more)
    ensures var d := Client.Next(c, step);
            Client.Run(c, [step] + more) == Client.Run(d, more) &&
            Sent(c, [step] + more) ==
              (if step.UserSend? && c.state == Client.Connected then [step.message] else []) + Sent(d, more) &&
            Receiver.Consumed(c, [step] + more) == Receiver.ReadBy(c, step) + Receiver.Consumed(d, more) &&
            Receiver.Requests(c, [step] + more) == (if Receiver.Asks(c, step) then 1 else 0) + Receiver.Requests(d, more)
  {
    assert ([step] + more)[1..] == more;
  }

  /** What a run of a client comes to: what it sends and reads, and that it is connected in the end. */
  ghost predicate Result(c: Client.Client, steps: seq<Client.Step>, ms: seq<Message>, ps: seq<seq<Byte>>, requests: nat) {
    && Client.Possible(c, steps)
    && Sent(c, steps) == ms && Receiver.Consumed(c, steps) == Packets(ps) && Receiver.Requests(c, steps) == requests
    && Client.Run(c, steps).state == Client.Connected && !Client.Run(c, steps).halted
  }

  lemma HeaderTaken(c: Client.Client, k: nat, n: nat, p: seq<Byte>)
    requires Ready(c, k, n) && Fits(p)
    ensures var step := Client.Complete(k, Client.Ended(Client.NoError, PacketHeader(|p| + SEGMENTATION_HEADER)));
            Client.Enabled(c, step) &&
            var d := Client.Next(c, step);
            d.state == Client.Connected && !d.halted && |d.pending| == n + 1 && d.pending[n] == Client.BodyRead(|p|)
  {
    JudgeByHeader(PacketHeader(|p| + SEGMENTATION_HEADER), |p|);
  }

  lemma BodyTaken(d: Client.Client, n: nat, p: seq<Byte>)
    requires d.state == Client.Connected && !d.halted && |d.pending| == n + 1 && d.pending[n] == Client.BodyRead(|p|)
    requires p != []
    ensures var step := Client.Complete(n, Client.Ended(Client.NoError, p));
            Client.Enabled(d, step) && Ready(Client.Next(d, step), n, n)
  {}

  lemma SaysFirst(c: Client.Client, m: Message, more: seq<Client.Step>, ms: seq<Message>, ps: seq<seq<Byte>>)
    requires c.state == Client.Connected && !c.halted
    requires Result(Client.Next(c, Client.UserSend(m)), more, ms, ps, 0)
    ensures Result(c, [Client.UserSend(m)] + more, [m] + ms, ps, 0)
  {
    ClientFirst(c, Client.UserSend(m), more);
    assert [] + Packets(ps) == Packets(ps);
  }

  lemma HearsFirst(c: Client.Client, k: nat, n: nat, p: seq<Byte>, more: seq<Client.Step>, ps: seq<seq<Byte>>)
    requires Ready(c, k, n) && Fits(p) && p != []
    requires var first := Client.Complete(k, Client.Ended(Client.NoError, PacketHeader(|p| + SEGMENTATION_HEADER)));
             var second := Client.Complete(n, Client.Ended(Client.NoError, p));
             Client.Enabled(c, first) && Client.Enabled(Client.Next(c, first), second) &&
             Result(Client.Next(Client.Next(c, first), second), more, [], ps, 0)
    ensures var first := Client.Complete(k, Client.Ended(Client.NoError, PacketHeader(|p| + SEGMENTATION_HEADER)));
            var second := Client.Complete(n, Client.Ended(Client.NoError, p));
            Result(c, [first] + ([second] + more), [], [p] + ps, 0)
  {
    var first := Client.Complete(k, Client.Ended(Client.NoError, PacketHeader(|p| + SEGMENTATION_HEADER)));
    var second := Client.Complete(n, Client.Ended(Client.NoError, p));
    HeaderTaken(c, k, n, p);
    ClientFirst(Client.Next(c, first), second, more);
    ClientFirst(c, first, [second] + more);
    Associative(PacketHeader(|p| + SEGMENTATION_HEADER), p, Packets(ps));
    PacketsCons(p, ps);
  }

  lemma {:induction false} TalksAll(c: Client.Client, ms: seq<Message>, k: nat, n: nat, ps: seq<seq<Byte>>)
    requires Ready(c, k, n) && AllFit(ps) && forall i :: 0 <= i < |ps| ==> ps[i] != []
    ensures Result(c, Talking(ms, k, n, ps), ms, ps, 0)
    decreases |ms|, |ps|
  {
    if ms != [] {
      TalksAll(Client.Next(c, Client.UserSend(ms[0])), ms[1..], k, n + 1, ps);
      SaysFirst(c, ms[0], Talking(ms[1..], k, n + 1, ps), ms[1..], ps);
      assert [ms[0]] + ms[1..] == ms;
    } else if ps != [] {
      HeaderTaken(c, k, n, ps[0]);
      var d := Client.Next(c, Client.Complete(k, Client.Ended(Client.NoError, PacketHeader(|ps[0]| + SEGMENTATION_HEADER))));
      BodyTaken(d, n, ps[0]);
      TalksAll(Client.Next(d, Client.Complete(n, Client.Ended(Client.NoError, ps[0]))), [], n, n, ps[1..]);
      HearsFirst(c, k, n, ps[0], Talking([], n, n, ps[1..]), ps[1..]);
      assert [ps[0]] + ps[1..] == ps;
    }
  }

  const HOST := Client.Endpoint("host", 34443)

  const ASK := Client.UserConnect(true)
  const RESOLVE := Client.Complete(0, Client.Resolved(Client.NoError, [HOST]))
  const CONNECT := Client.Complete(0, Client.Ended(Client.NoError, []))

  function Dialling(talk: seq<Client.Step>): seq<Client.Step> {
    [ASK] + ([RESOLVE] + ([CONNECT] + talk))
  }

  /** The states on the way to a connection. */
  lemma Dials()
    ensures Client.Enabled(Client.INITIAL, ASK)
    ensures var c := Client.Next(Client.INITIAL, ASK);
            c.state == Client.Negotiating && Client.Enabled(c, RESOLVE) &&
            var d := Client.Next(c, RESOLVE);
            d.state == Client.Negotiating && Client.Enabled(d, CONNECT) && Ready(Client.Next(d, CONNECT), 0, 0)
  {
    var d := Client.Next(Client.Next(Client.INITIAL, ASK), RESOLVE);
    assert d.pending == [Client.Connect([HOST], 0, 0)] && |d.chains| == 1;
  }

  lemma ResultFirst(c: Client.Client, step: Client.Step, more: seq<Client.Step>, ms: seq<Message>, ps: seq<seq<Byte>>, requests: nat)
    requires Client.Enabled(c, step) && Result(Client.Next(c, step), more, ms, ps, requests)
    requires !step.UserSend? && Receiver.ReadBy(c, step) == []
    ensures Result(c, [step] + more, ms, ps, requests + if Receiver.Asks(c, step) then 1 else 0)
  {
    ClientFirst(c, step, more);
    assert [] + ms == ms && [] + Packets(ps) == Packets(ps);
  }

  /** The client connects to the first host it finds, says everything, and hears everything. */
  lemma ClientTalks(ms: seq<Message>, ps: seq<seq<Byte>>)
    requires AllFit(ps) && forall i :: 0 <= i < |ps| ==> ps[i] != []
    ensures Result(Client.INITIAL, Dialling(Talking(ms, 0, 0, ps)), ms, ps, 1)
  {
    var talk := Talking(ms, 0, 0, ps);
    var c := Client.Next(Client.INITIAL, ASK);
    Dials();
    var d := Client.Next(c, RESOLVE);
    TalksAll(Client.Next(d, CONNECT), ms, 0, 0, ps);
    assert Result(Client.Next(d, CONNECT), talk, ms, ps, 0);
    ConnectReadsNothing(d);
    ResultFirst(d, CONNECT, talk, ms, ps, 0);
    ResultFirst(c, RESOLVE, [CONNECT] + talk, ms, ps, 0);
    ResultFirst(Client.INITIAL, ASK, [RESOLVE] + ([CONNECT] + talk), ms, ps, 0);
  }

  lemma ConnectReadsNothing(d: Client.Client)
    requires Client.Enabled(d, CONNECT)
    ensures Receiver.ReadBy(d, CONNECT) == []
  {}

  // ---------- together ----------

  /** Everybody behind peer 1 is this one client; nobody else speaks. */
  function Alone(csteps: seq<Client.Step>): int -> seq<Client.Step> {
    i => if i == 1 then csteps else []
  }

  ghost predicate Echoes(ms: seq<Message>, steps: seq<Server.Step>, csteps: seq<Client.Step>) {
    && Server.Possible(Server.INITIAL, steps) && Client.Possible(Client.INITIAL, csteps)
    && Speaking(steps, Alone(csteps)) && Receiver.Requests(Client.INITIAL, csteps) == 1
    && Sent(Client.INITIAL, csteps) == ms
    && Receiver.Consumed(Client.INITIAL, csteps) == Joined(Server.SentTo(Server.Run(Server.INITIAL, steps).trace, 1))
    && Collect(Client.Run(Client.INITIAL, csteps).trace, Reports.ReceivedOf) == ms
  }

  lemma {:induction false} ImagesJoined(ps: seq<seq<Byte>>)
    ensures Joined(ImagesOf(ps)) == Packets(ps)
  {
    if ps != [] {
      ImagesJoined(ps[1..]);
      assert ImagesOf(ps)[1..] == ImagesOf(ps[1..]);
    }
  }

  /** For any short messages there are runs in which the client connects, says them, the server relays them,
      and the client gets exactly them back: what is proved of all runs is not proved of none. */
  lemma EchoPossible(ms: seq<Message>)
    requires AllShort(ms)
    ensures exists steps, csteps :: Echoes(ms, steps, csteps)
  {
    var ps := Wires(ms);
    var steps, csteps := [Server.Accept(true)] + Hearing(0, ps), Dialling(Talking(ms, 0, 0, ps));
    ShortFit(ms);
    forall i | 0 <= i < |ps| ensures ps[i] != [] {
      WireNotEmpty(ms, i);
    }
    ServerHears(ps);
    ClientTalks(ms, ps);
    ImagesJoined(ps);
    StartedPackets(Client.INITIAL, csteps);
    forall i
      ensures SpeaksOver(Alone(csteps)(i), Reader.Consumed(Server.INITIAL, steps, i))
    {
      assert Reader.Consumed(Server.INITIAL, steps, 1) == Started(Client.INITIAL, csteps);
    }
    ClientGets(csteps, ms);
    assert Echoes(ms, steps, csteps);
  }
}
