/** The server's objects: reference-counted peers, their handlers, and the dispatcher they call back
    (src/server/remotepeer.cpp, src/server/dispatcher.cpp, include/refcounter.hpp).

    Every handler in the event loop holds a counted reference to its peer. Dropping the last one calls
    back into the dispatcher, which erases the peer. `held` counts the references of running code, so
    that a reference count always equals the live references. Each step of the event loop is proved to
    be the step of `ServerProtocol`.
 */
module Dispatcher {
  import opened Bytes
  import opened MessageLayers
  import opened Framing
  import opened ServerProtocol
  import opened ServerRuns
  import ServerSteps

  datatype ServerEvent =
    | MsgReceived(id: int, parm: Layer)
    | ConnectionErrorEvent(id: int)
    | CanDeleteEvent(id: int)

  /** Every body the peer waits for belongs to the header `h`. */
  ghost predicate Headed(p: Peer, h: seq<Byte>) {
    forall k :: 0 <= k < |p.pending| && p.pending[k].BodyRead? ==> p.pending[k].header == h
  }

  lemma HeadedQueued(p: Peer, op: Pending, h: seq<Byte>)
    requires Headed(p, h) && (op.BodyRead? ==> op.header == h)
    ensures Headed(Queued(p, op), h)
  {}

  lemma HeadedAfterHeader(s: Server, id: int, h: seq<Byte>, outcome: Outcome)
    requires id in s.peers && (outcome.Success? ==> |outcome.data| == SEGMENTATION_HEADER && h == outcome.data)
    requires forall j :: 0 <= j < |s.peers[id].pending| ==> !s.peers[id].pending[j].IsRead()
    ensures var t := if outcome.Failure? then Failing(s, id) else HeaderHandled(s, id, outcome.data);
            id in t.peers && Headed(t.peers[id], h)
  {}

  lemma HeadedAfterBody(s: Server, id: int, header: seq<Byte>, body: seq<Byte>, i: int, h: seq<Byte>)
    requires id in s.peers && i in s.peers && Headed(s.peers[i], h)
    ensures var t := BodyArrived(s, id, header, body);
            i in t.peers && Headed(t.peers[i], h)
  {
    HeadedQueued(s.peers[i], Write(Packet(body)), h);
    if i == id {
      HeadedQueued(Queued(s.peers[i], Write(Packet(body))), StartHeaderRead(s.peers[id]), h);
    }
  }

  class RemotePeer {
    const connection_id: int
    const server: DispatchingServer
    const header_buffer: array<Byte>
    var reference_count: nat
    var error_happened: bool
    var socket_open: bool
    var pending: seq<Pending>
    ghost var held: nat

    ghost predicate Counted()
      reads this
    {
      reference_count == |pending| + held && header_buffer.Length == SEGMENTATION_HEADER
    }

    ghost function View(): Peer
      reads this
    {
      Peer(pending, error_happened, !socket_open)
    }

    /** The dispatcher either does not know this id, or knows it as this peer. */
    ghost predicate Known()
      reads server
    {
      connection_id in server.peers_list ==> server.peers_list[connection_id] == this
    }

    twostate predicate Gained(op: Pending)
      reads this
    {
      View() == Queued(old(View()), op) && held == old(held)
    }

    twostate predicate Same()
      reads this
    {
      View() == old(View()) && held == old(held)
    }

    /** No running code refers to the peer, and while it waits for a body its header buffer still
        holds the header of that packet. */
    ghost predicate Idle()
      reads this, header_buffer
    {
      held == 0 && HeaderKept()
    }

    ghost predicate HeaderKept()
      reads this, header_buffer
    {
      Headed(View(), header_buffer[..])
    }

    twostate lemma StaysIdle()
      requires old(Idle()) && Same() && header_buffer[..] == old(header_buffer[..])
      ensures Idle()
    {}

    constructor (server: DispatchingServer, id: int)
      requires server.Structure() && id !in server.peers_list
      modifies server
      ensures connection_id == id && this.server == server && fresh(header_buffer)
      ensures Counted() && held == 0 && View() == Peer([HeaderRead(true)], false, false)
      ensures server.SameList() && server.Structure()
    {
      connection_id := id;
      this.server := server;
      header_buffer := new Byte[SEGMENTATION_HEADER];
      reference_count, error_happened, socket_open, pending, held := 0, false, true, [], 0;
      new;
      StartReceive();
    }

    /** Running code makes a counted reference. */
    method IncreaseRefCount()
      requires Counted()
      modifies this`reference_count, this`held
      ensures Counted() && held == old(held) + 1
    {
      reference_count := reference_count + 1;
      held := held + 1;
    }

    /** Running code drops a counted reference; the last one triggers the action. */
    method DecreaseRefCount()
      requires Counted() && Known() && held > 0
      requires server.Structure()
      modifies this`reference_count, this`held, server
      ensures Counted() && held == old(held) - 1
      ensures reference_count > 0 || connection_id !in old(server.peers_list) ==>
                server.peers_list == old(server.peers_list) && server.trace == old(server.trace)
      ensures reference_count == 0 && connection_id in old(server.peers_list) ==>
                server.peers_list == old(server.peers_list) - {connection_id} &&
                server.trace == old(server.trace) + [Event.CanDelete(connection_id)]
      ensures server.Structure() && server.ScalarsUnchanged()
      decreases 3
    {
      reference_count := reference_count - 1;
      held := held - 1;
      if reference_count == 0 {
        CanDelete();
      }
    }

    /** The action of the reference counter. */
    method CanDelete()
      requires Counted() && Known()
      requires server.Structure()
      modifies server
      ensures reference_count > 0 || connection_id !in old(server.peers_list) ==>
                server.peers_list == old(server.peers_list) && server.trace == old(server.trace)
      ensures reference_count == 0 && connection_id in old(server.peers_list) ==>
                server.peers_list == old(server.peers_list) - {connection_id} &&
                server.trace == old(server.trace) + [Event.CanDelete(connection_id)]
      ensures server.Structure() && server.ScalarsUnchanged()
      decreases 2
    {
      if reference_count == 0 {
        server.HandleServerEvent(CanDeleteEvent(connection_id));
      }
    }

    /** The event loop takes over a handler, and with it a copy of a reference. */
    method Enqueue(op: Pending)
      requires Counted()
      modifies this`pending, this`reference_count
      ensures Counted() && Gained(op)
    {
      pending := pending + [op];
      reference_count := reference_count + 1;
    }

    /** The event loop hands a handler, and its reference, to running code. */
    method Take(k: nat)
      requires Counted() && k < |pending|
      modifies this`pending, this`held
      ensures Counted() && held == old(held) + 1
      ensures View() == old(View()).(pending := Without(old(pending), k))
    {
      pending := Without(pending, k);
      held := held + 1;
    }

    /** A header read has filled its buffer. */
    method FillHeader(data: seq<Byte>)
      requires |data| == header_buffer.Length
      modifies header_buffer
      ensures header_buffer[..] == data
    {
      for i := 0 to |data|
        invariant header_buffer[..i] == data[..i]
      {
        header_buffer[i] := data[i];
      }
    }

    method StartReceive()
      requires Counted() && Known()
      requires server.Structure()
      modifies this, server
      ensures Counted() && Gained(HeaderRead(socket_open))
      ensures server.SameList() && server.Structure()
    {
      IncreaseRefCount();
      Enqueue(HeaderRead(socket_open));
      DecreaseRefCount();
    }

    method SendMessage(msg: Layer)
      requires Counted() && Known()
      requires server.Structure() && msg.Valid()
      modifies this, server
      ensures Counted() && Gained(Write(Wire(msg)))
      ensures server.peers_list == old(server.peers_list)
      ensures server.trace == old(server.trace) + [Sent(connection_id, Wire(msg))]
      ensures server.Structure() && server.ScalarsUnchanged()
      decreases 4
    {
      var data := Serialize(server.host, msg);
      IncreaseRefCount();
      Enqueue(Write(data));
      server.trace := server.trace + [Sent(connection_id, data)];
      DecreaseRefCount();
    }

    method ShutdownConnection()
      modifies this`socket_open
      ensures !socket_open
    {
      socket_open := false;
    }

    method PostError()
      requires Counted() && Known() && connection_id in server.peers_list
      requires server.Structure()
      modifies this, server
      ensures Counted() && held == old(held) && reference_count == old(reference_count)
      ensures View() == if old(error_happened) then old(View()) else Peer(pending, true, true)
      ensures pending == old(pending)
      ensures server.peers_list == old(server.peers_list)
      ensures server.trace ==
              if old(error_happened) then old(server.trace) else old(server.trace) + [ConnectionError(connection_id)]
      ensures server.Structure() && server.ScalarsUnchanged()
    {
      if !error_happened {
        server.HandleServerEvent(ConnectionErrorEvent(connection_id));
        error_happened := true;
      }
    }

    /** What a running handler may rely on: it holds one reference, and its peer is listed. */
    ghost predicate Running()
      reads this, server, server.Peers()
    {
      Counted() && held > 0 && connection_id in server.peers_list && Known() && server.Structure()
    }

    /** An error, as every handler posts it. */
    method Fail()
      requires Running()
      modifies this, server
      ensures Running() && held == old(held)
      ensures server.peers_list == old(server.peers_list)
      ensures server.View() == Failing(old(server.View()), connection_id)
    {
      PostError();
      server.OnlyChange(this);
    }

    method SendHandler(error: bool)
      requires Running()
      modifies this, server
      ensures Running() && held == old(held)
      ensures server.peers_list == old(server.peers_list)
      ensures server.View() ==
              if error then Failing(old(server.View()), connection_id) else old(server.View())
    {
      if error {
        Fail();
      }
    }

    method RcvHeaderHandler(error: bool)
      requires Running()
      modifies this, server
      ensures Running() && held == old(held)
      ensures server.peers_list == old(server.peers_list)
      ensures server.View() ==
              if error then Failing(old(server.View()), connection_id)
              else HeaderHandled(old(server.View()), connection_id, header_buffer[..])
    {
      if error {
        Fail();
        return;
      }
      var header := DecodeHeader(server.host, header_buffer[..]);
      if header.Thrown? || header.value > MAX_PACKETSIZE {
        assert Judge(header_buffer[..]) == Reject;
        Fail();
        return;
      }
      if BodyLength(header.value) > MAX_VECTOR {
        assert Judge(header_buffer[..]) == LengthError;
        server.status := Aborted;
        server.OnlyChange(this);
        return;
      }
      assert Judge(header_buffer[..]) == Body(BodyLength(header.value));
      ReadBody(BodyLength(header.value));
    }

    /** Starts the receive for the body. */
    method ReadBody(length: nat)
      requires Running()
      modifies this
      ensures Running() && held == old(held)
      ensures server.View() ==
              Queue(old(server.View()), connection_id, StartBodyRead(old(View()), header_buffer[..], length))
    {
      Enqueue(BodyRead(header_buffer[..], length, socket_open || length == 0));
      server.OnlyChange(this);
    }

    method RcvBodyHandler(error: bool, body_data: seq<Byte>)
      requires Running()
      modifies this, server, if error then {} else server.Peers()
      ensures Running() && held == old(held)
      ensures server.peers_list == old(server.peers_list)
      ensures forall i :: i in server.peers_list ==> server.peers_list[i].held == old(server.peers_list[i].held)
      ensures server.View() ==
              if error then Failing(old(server.View()), connection_id)
              else BodyArrived(old(server.View()), connection_id, header_buffer[..], body_data)
    {
      if error {
        Fail();
      } else {
        Relay(body_data);
      }
    }

    /** Reports the message and renews the receive call. */
    method Relay(body_data: seq<Byte>)
      requires Running()
      modifies this, server, server.Peers()
      ensures Running() && held == old(held)
      ensures server.peers_list == old(server.peers_list)
      ensures forall i :: i in server.peers_list ==> server.peers_list[i].held == old(server.peers_list[i].held)
      ensures server.View() == BodyArrived(old(server.View()), connection_id, header_buffer[..], body_data)
    {
      PostMessage(body_data);
      label heard:
      StartReceive();
      server.OnlyChange@heard(this);
    }

    /** The event callback for a received message. */
    method PostMessage(body_data: seq<Byte>)
      requires Running()
      modifies this, server, server.Peers()
      ensures Running() && held == old(held) && socket_open == old(socket_open)
      ensures server.peers_list == old(server.peers_list)
      ensures forall i :: i in server.peers_list ==> server.peers_list[i].held == old(server.peers_list[i].held)
      ensures server.View() ==
              Broadcast(Logged(old(server.View()), connection_id, header_buffer[..] + body_data), Packet(body_data))
    {
      var segmlayer := SegmentationLayer(SerializedData(Slice(body_data, 0, |body_data|)));
      WholeSlice(body_data);
      server.HandleServerEvent(MsgReceived(connection_id, segmlayer));
      server.EveryoneGained(Packet(body_data));
    }
  }

  lemma HeaderDoneSettles(s: Server, id: int, outcome: Outcome)
    requires id in s.peers && s.status == Status.Running && (outcome.Success? ==> |outcome.data| == SEGMENTATION_HEADER)
    ensures var t := if outcome.Failure? then Failing(s, id) else HeaderHandled(s, id, outcome.data);
            id in t.peers && HeaderDone(s, id, outcome) == if t.status == Aborted then t else Settle(t, id)
  {}

  lemma BodyArrivedBusy(s: Server, id: int, header: seq<Byte>, body: seq<Byte>)
    requires id in s.peers
    ensures var t := BodyArrived(s, id, header, body);
            id in t.peers && Settle(t, id) == t
  {}

  /** A peer waits for at most one read. */
  lemma OnlyRead(p: Peer, k: nat)
    requires PeerOk(p) && k < |p.pending| && p.pending[k].IsRead()
    ensures forall j :: 0 <= j < |p.pending| && j != k ==> !p.pending[j].IsRead()
  {
    forall j | 0 <= j < |p.pending| && j != k
      ensures !p.pending[j].IsRead()
    {
      SumWithout(p.pending, k, ReadWeight);
      var i := if j < k then j else j - 1;
      SumWithout(Without(p.pending, k), i, ReadWeight);
    }
  }

  ghost function Logged(s: Server, id: int, frame: seq<Byte>): Server {
    s.(trace := s.trace + [Received(id, frame)])
  }

  lemma SendsFirst(trace: seq<Event>, ids: set<int>, frame: seq<Byte>)
    requires ids != {}
    ensures var i := Least(ids);
            trace + Sends(ids, frame) == trace + [Sent(i, frame)] + Sends(ids - {i}, frame)
  {}

  lemma WholeSlice(data: seq<Byte>)
    ensures var l := SegmentationLayer(SerializedData(Slice(data, 0, |data|)));
            l.Valid() && Wire(l.inner) == data && Wire(l) == Packet(data)
  {}

  /** What the header handler does, before its reference is dropped. */
  ghost function HeaderHandled(s: Server, id: int, h: seq<Byte>): Server
    requires id in s.peers && |h| == SEGMENTATION_HEADER
  {
    match Judge(h)
    case Reject => Failing(s, id)
    case LengthError => s.(status := Aborted)
    case Body(n) => Queue(s, id, StartBodyRead(s.peers[id], h, n))
  }

  class DispatchingServer {
    const host: Host
    var peers_list: map<int, RemotePeer>
    var current_conn_id: int
    var status: Status
    ghost var trace: seq<Event>

    ghost function Peers(): set<RemotePeer>
      reads this
    {
      set id | id in peers_list :: peers_list[id]
    }

    ghost predicate Structure()
      reads this, Peers()
    {
      forall id :: id in peers_list ==>
                     peers_list[id].connection_id == id && peers_list[id].server == this && peers_list[id].Counted()
    }

    ghost predicate OwnBuffers()
      reads this
    {
      forall i, j :: i in peers_list && j in peers_list && i != j ==>
                       peers_list[i].header_buffer != peers_list[j].header_buffer
    }

    ghost function View(): Server
      reads this, Peers()
    {
      Server(map id | id in peers_list :: peers_list[id].View(), current_conn_id, trace, status)
    }

    twostate predicate ScalarsUnchanged()
      reads this
    {
      current_conn_id == old(current_conn_id) && status == old(status)
    }

    twostate predicate SameList()
      reads this
    {
      ScalarsUnchanged() && peers_list == old(peers_list) && trace == old(trace)
    }

    /** Every other listed peer was listed before and has not changed. */
    twostate predicate OthersUnchanged(id: int)
      reads this, Peers()
    {
      forall i :: i in peers_list && i != id ==>
                    i in old(peers_list) && peers_list[i] == old(peers_list[i]) && peers_list[i].Same()
    }

    /** If only one listed peer has changed, the view has changed there and nowhere else. */
    twostate lemma OnlyChange(peer: RemotePeer)
      requires peers_list == old(peers_list) && OthersUnchanged(peer.connection_id)
      requires peer.connection_id in peers_list && peers_list[peer.connection_id] == peer
      ensures View().peers == old(View()).peers[peer.connection_id := peer.View()]
    {
      forall i | i in peers_list && i != peer.connection_id
        ensures View().peers[i] == old(View()).peers[i]
      {
        assert peers_list[i].Same();
      }
    }

    /** If every listed peer has gained a write, the view is the one after a broadcast. */
    twostate lemma EveryoneGained(frame: seq<Byte>)
      requires peers_list == old(peers_list)
      requires forall i :: i in peers_list ==> peers_list[i].Gained(Write(frame))
      ensures View().peers == WithWrite(old(View()).peers, frame) && old(View()).peers.Keys == peers_list.Keys
    {
      forall i | i in peers_list
        ensures View().peers[i] == WithWrite(old(View()).peers, frame)[i]
      {
        assert peers_list[i].Gained(Write(frame));
      }
    }

    /** The peers an event may change. */
    ghost function Touched(evt: ServerEvent): set<RemotePeer>
      reads this
    {
      match evt
      case MsgReceived(_, _) => Peers()
      case ConnectionErrorEvent(id) => if id in peers_list then {peers_list[id]} else {}
      case CanDeleteEvent(_) => {}
    }

    method HandleServerEvent(evt: ServerEvent)
      requires Structure()
      requires evt.MsgReceived? ==> evt.parm.SegmentationLayer? && evt.parm.Valid()
      modifies this, Touched(evt)
      ensures Structure() && ScalarsUnchanged()
      ensures evt.id !in old(peers_list) ==> SameList()
      ensures evt.id in old(peers_list) ==>
                match evt
                case MsgReceived(id, parm) =>
                  peers_list == old(peers_list) &&
                  (forall i :: i in peers_list ==> peers_list[i].Gained(Write(Wire(parm)))) &&
                  trace == old(trace) + [Received(id, old(peers_list[id].header_buffer[..]) + Wire(parm.inner))] +
                           Sends(peers_list.Keys, Wire(parm))
                case ConnectionErrorEvent(id) =>
                  peers_list == old(peers_list) &&
                  trace == old(trace) + [ConnectionError(id)] &&
                  !peers_list[id].socket_open && peers_list[id].pending == old(peers_list[id].pending) &&
                  peers_list[id].reference_count == old(peers_list[id].reference_count) &&
                  peers_list[id].held == old(peers_list[id].held) &&
                  peers_list[id].error_happened == old(peers_list[id].error_happened)
                case CanDeleteEvent(id) =>
                  peers_list == old(peers_list) - {id} &&
                  trace == old(trace) + [Event.CanDelete(id)]
      decreases if evt.MsgReceived? then 6 else 1
    {
      if evt.id !in peers_list {
        return;
      }
      match evt
      case MsgReceived(id, parm) =>
        trace := trace + [Received(id, peers_list[id].header_buffer[..] + Wire(parm.inner))];
        DistributeMessage(id, parm);
      case ConnectionErrorEvent(id) =>
        trace := trace + [ConnectionError(id)];
        peers_list[id].ShutdownConnection();
      case CanDeleteEvent(id) =>
        trace := trace + [Event.CanDelete(id)];
        peers_list := peers_list - {id};
    }

    /** Every listed peer, the originator included, is sent the message, in the order of the list. The
        releases inside `SendMessage` never reach the last reference, so the list stays as it is. */
    method DistributeMessage(originating_id: int, data: Layer)
      requires Structure() && data.Valid()
      modifies this, Peers()
      ensures Structure() && ScalarsUnchanged()
      ensures peers_list == old(peers_list)
      ensures forall i :: i in peers_list ==> peers_list[i].Gained(Write(Wire(data)))
      ensures trace == old(trace) + Sends(peers_list.Keys, Wire(data))
      decreases 5, 1
    {
      var ahead := peers_list.Keys;
      ghost var total := trace + Sends(ahead, Wire(data));
      while ahead != {}
        invariant ahead <= peers_list.Keys && peers_list == old(peers_list)
        invariant Structure() && ScalarsUnchanged()
        invariant forall i :: i in peers_list ==>
                                if i in ahead then peers_list[i].Same() else peers_list[i].Gained(Write(Wire(data)))
        invariant trace + Sends(ahead, Wire(data)) == total
        decreases ahead
      {
        var it := Least(ahead);
        SendsFirst(trace, ahead, Wire(data));
        SendTo(it, data);
        ahead := ahead - {it};
      }
    }

    /** `it->second->sendMessage(data)`. */
    method SendTo(it: int, data: Layer)
      requires Structure() && data.Valid() && it in peers_list
      modifies this, Peers()
      ensures Structure() && ScalarsUnchanged()
      ensures peers_list == old(peers_list) && OthersUnchanged(it)
      ensures peers_list[it].Gained(Write(Wire(data)))
      ensures trace == old(trace) + [Sent(it, Wire(data))]
      decreases 5, 0
    {
      peers_list[it].SendMessage(data);
    }

    /** Between two handlers every count is the number of handlers that wait, and the state
        satisfies the invariant of the protocol. */
    ghost predicate Valid()
      reads this, Peers(), set id | id in peers_list :: peers_list[id].header_buffer
    {
      Structure() && OwnBuffers() && Inv(View()) && (status != Aborted ==> AllIdle())
    }

    ghost predicate AllIdle()
      reads this, Peers(), set id | id in peers_list :: peers_list[id].header_buffer
    {
      forall id :: id in peers_list ==> peers_list[id].Idle()
    }

    constructor (host: Host)
      ensures Valid() && View() == INITIAL
    {
      this.host := host;
      peers_list, current_conn_id, status, trace := map[], 0, Status.Running, [];
      new;
      assert View().peers == map[];
      InitialInv();
    }

    method GetNextConnectionId() returns (id: int)
      modifies this`current_conn_id
      ensures id == current_conn_id == old(current_conn_id) + 1
    {
      current_conn_id := current_conn_id + 1;
      id := current_conn_id;
    }

    /** A new peer starts to receive and is put on the list. */
    method AdmitPeer(id: int)
      requires Structure() && OwnBuffers() && id !in peers_list
      modifies this
      ensures Structure() && OwnBuffers() && ScalarsUnchanged()
      ensures peers_list.Keys == old(peers_list).Keys + {id} && OthersUnchanged(id)
      ensures peers_list[id].View() == Peer([HeaderRead(true)], false, false) && peers_list[id].held == 0
      ensures trace == old(trace) + [Accepted(id)] && Grown()
    {
      var remote_peer := new RemotePeer(this, id);
      peers_list := peers_list[id := remote_peer];
      trace := trace + [Accepted(id)];
    }

    method AcceptPeer()
      requires Structure() && OwnBuffers() && AllIdle() && current_conn_id + 1 !in peers_list
      modifies this
      ensures Structure() && OwnBuffers() && AllIdle()
      ensures View() == Accepting(old(View()), true) && Grown()
      ensures peers_list.Keys == old(peers_list).Keys + {old(current_conn_id) + 1} && status == old(status)
    {
      var connection_id := GetNextConnectionId();
      AdmitPeer(connection_id);
      Admitted(connection_id);
      StayIdle(connection_id);
    }

    method AcceptHandler(ok: bool)
      requires Valid() && status == Status.Running
      modifies this
      ensures Valid() && View() == Accepting(old(View()), ok) && Grown()
      ensures !ok ==> status == Status.Stopped && peers_list == old(peers_list) && trace == old(trace)
      ensures ok ==> status == Status.Running && peers_list.Keys == old(peers_list).Keys + {old(current_conn_id) + 1}
    {
      AcceptingKeeps(View(), ok);
      if ok {
        assert Fate(View(), current_conn_id + 1);
        AcceptPeer();
      } else {
        status := Status.Stopped;
        assert View().peers == old(View()).peers;
      }
    }

    twostate lemma StayIdle(id: int)
      requires old(AllIdle()) && OthersUnchanged(id)
      requires forall i :: i in peers_list && i != id && i in old(peers_list) ==>
                             old(peers_list)[i].header_buffer[..] == old(peers_list[i].header_buffer[..])
      requires id in peers_list ==> peers_list[id].Idle()
      ensures AllIdle()
    {
      forall i | i in peers_list && i != id
        ensures peers_list[i].Idle()
      {
        assert peers_list[i].Same() && old(peers_list[i].Idle());
        peers_list[i].StaysIdle();
      }
    }

    twostate lemma Admitted(id: int)
      requires id !in old(peers_list) && peers_list.Keys == old(peers_list).Keys + {id} && OthersUnchanged(id)
      requires peers_list[id].View() == Peer([HeaderRead(true)], false, false)
      ensures View().peers == old(View()).peers[id := Peer([HeaderRead(true)], false, false)]
    {
      forall i | i in peers_list && i != id
        ensures View().peers[i] == old(View()).peers[i]
      {
        assert peers_list[i].Same();
      }
    }

    /** Like `AllIdle`, while a handler of peer `id` runs and holds one reference. */
    ghost predicate IdleBut(id: int)
      reads this, Peers(), set id | id in peers_list :: peers_list[id].header_buffer
    {
      forall i :: i in peers_list ==> peers_list[i].HeaderKept() && peers_list[i].held == if i == id then 1 else 0
    }

    /** A handler of `peer` may run. */
    ghost predicate Busy(peer: RemotePeer)
      reads this, peer, Peers(), set id | id in peers_list :: peers_list[id].header_buffer
    {
      Structure() && OwnBuffers() && peer.connection_id in peers_list && peers_list[peer.connection_id] == peer &&
      IdleBut(peer.connection_id)
    }

    twostate lemma StayBusy(peer: RemotePeer)
      requires old(Busy(peer)) && Structure() && peers_list == old(peers_list)
      requires forall i :: i in peers_list && i != peer.connection_id ==>
                             peers_list[i].Same() &&
                             peers_list[i].header_buffer[..] == old(peers_list[i].header_buffer[..])
      requires peer.held == 1 && peer.HeaderKept()
      ensures Busy(peer)
    {
      forall i | i in peers_list && i != peer.connection_id
        ensures peers_list[i].HeaderKept() && peers_list[i].held == 0
      {
        assert peers_list[i].Same() && old(peers_list[i].HeaderKept());
      }
    }

    /** The event loop starts the k-th handler that waits for a peer. */
    method BeginHandler(id: int, k: nat) returns (peer: RemotePeer)
      requires Structure() && OwnBuffers() && AllIdle() && id in peers_list && k < |peers_list[id].pending|
      modifies peers_list[id]
      ensures peer == peers_list[id] && Busy(peer)
      ensures View() == Dequeue(old(View()), id, k)
    {
      assert forall i :: i in peers_list ==> peers_list[i].Idle();
      peer := peers_list[id];
      peer.Take(k);
      OnlyChange(peer);
    }

    /** At most the peer `id` has left the list. */
    twostate predicate Shrunk(id: int)
      reads this
    {
      peers_list == old(peers_list) || peers_list == old(peers_list) - {id}
    }

    /** The running handler returns and drops its reference. */
    method EndHandler(peer: RemotePeer)
      requires peer.server == this && Busy(peer)
      modifies peer, this
      ensures Structure() && OwnBuffers() && AllIdle() && Shrunk(peer.connection_id)
      ensures View() == Settle(old(View()), peer.connection_id)
    {
      peer.DecreaseRefCount();
      forall i | i in peers_list
        ensures View().peers[i] == old(View()).peers[i] && peers_list[i].Idle()
      {
        assert old(peers_list[i].HeaderKept());
      }
      assert View().peers == Settle(old(View()), peer.connection_id).peers;
    }

    method HandleSend(peer: RemotePeer, error: bool)
      requires peer.server == this && Busy(peer)
      modifies peer, this
      ensures Busy(peer) && peers_list == old(peers_list)
      ensures View() == if error then Failing(old(View()), peer.connection_id) else old(View())
    {
      peer.SendHandler(error);
      assert View().peers[peer.connection_id] == peer.View();
      StayBusy(peer);
    }

    /** A header read that ends while no other read is outstanding: no body waits for the header that
        is overwritten. */
    method HandleHeader(peer: RemotePeer, outcome: Outcome)
      requires peer.server == this && Busy(peer)
      requires outcome.Success? ==> |outcome.data| == SEGMENTATION_HEADER
      requires forall j :: 0 <= j < |peer.pending| ==> !peer.pending[j].IsRead()
      modifies peer, peer.header_buffer, this
      ensures Busy(peer) && peers_list == old(peers_list)
      ensures View() ==
              if outcome.Failure? then Failing(old(View()), peer.connection_id)
              else HeaderHandled(old(View()), peer.connection_id, outcome.data)
    {
      if outcome.Success? {
        peer.FillHeader(outcome.data);
        assert View().peers == old(View()).peers;
      }
      HeadedAfterHeader(View(), peer.connection_id, peer.header_buffer[..], outcome);
      peer.RcvHeaderHandler(outcome.Failure?);
      assert View().peers[peer.connection_id] == peer.View();
      StayBusy(peer);
    }

    /** A body that is complete: the message is broadcast. */
    method HandleBody(peer: RemotePeer, body: seq<Byte>)
      requires peer.server == this && Busy(peer)
      modifies Peers(), this
      ensures Busy(peer) && peers_list == old(peers_list)
      ensures View() == BodyArrived(old(View()), peer.connection_id, peer.header_buffer[..], body)
      ensures peer.connection_id in View().peers && Settle(View(), peer.connection_id) == View()
    {
      BodyArrivedBusy(View(), peer.connection_id, peer.header_buffer[..], body);
      peer.RcvBodyHandler(false, body);
      forall i | i in peers_list
        ensures peers_list[i].HeaderKept()
      {
        assert old(peers_list[i].HeaderKept());
        HeadedAfterBody(old(View()), peer.connection_id, peer.header_buffer[..], body, i, peers_list[i].header_buffer[..]);
        assert View().peers[i] == peers_list[i].View();
      }
    }

    method HandleBodyError(peer: RemotePeer)
      requires peer.server == this && Busy(peer)
      modifies peer, this
      ensures Busy(peer) && peers_list == old(peers_list)
      ensures View() == Failing(old(View()), peer.connection_id)
    {
      peer.RcvBodyHandler(true, []);
      assert View().peers[peer.connection_id] == peer.View();
      StayBusy(peer);
    }

    method RunSendHandler(id: int, k: nat, outcome: Outcome)
      requires Structure() && OwnBuffers() && AllIdle() && id in peers_list && k < |peers_list[id].pending|
      modifies peers_list[id], this
      ensures Structure() && OwnBuffers() && AllIdle() && Shrunk(id)
      ensures View() == WriteDone(Dequeue(old(View()), id, k), id, outcome)
    {
      var peer := BeginHandler(id, k);
      HandleSend(peer, outcome.Failure?);
      EndHandler(peer);
    }

    method RunHeaderHandler(id: int, k: nat, outcome: Outcome)
      requires Structure() && OwnBuffers() && AllIdle() && id in peers_list && k < |peers_list[id].pending|
      requires status == Status.Running && (outcome.Success? ==> |outcome.data| == SEGMENTATION_HEADER)
      requires forall j :: 0 <= j < |peers_list[id].pending| && j != k ==> !peers_list[id].pending[j].IsRead()
      modifies peers_list[id], peers_list[id].header_buffer, this
      ensures Structure() && OwnBuffers() && (status != Aborted ==> AllIdle()) && Shrunk(id)
      ensures View() == HeaderDone(Dequeue(old(View()), id, k), id, outcome)
    {
      var peer := BeginHandler(id, k);
      HeaderDoneSettles(View(), id, outcome);
      HandleHeader(peer, outcome);
      if status != Aborted {
        EndHandler(peer);
      }
    }

    method RunBodyError(id: int, k: nat)
      requires Structure() && OwnBuffers() && AllIdle() && id in peers_list && k < |peers_list[id].pending|
      modifies peers_list[id], this
      ensures Structure() && OwnBuffers() && AllIdle() && Shrunk(id)
      ensures View() == BodyDone(Dequeue(old(View()), id, k), id, [], Failure)
    {
      var peer := BeginHandler(id, k);
      HandleBodyError(peer);
      EndHandler(peer);
    }

    /** After a broadcast nobody is without a handler, so returning erases nobody. */
    method FinishBody(peer: RemotePeer, body: seq<Byte>)
      requires peer.server == this && Busy(peer)
      modifies Peers(), this
      ensures Structure() && OwnBuffers() && AllIdle() && Shrunk(peer.connection_id)
      ensures View() == BodyArrived(old(View()), peer.connection_id, peer.header_buffer[..], body)
    {
      HandleBody(peer, body);
      ghost var heard := View();
      EndHandler(peer);
      assert View() == heard;
    }

    method RunBodyHandler(id: int, k: nat, body: seq<Byte>)
      requires Structure() && OwnBuffers() && AllIdle() && id in peers_list && k < |peers_list[id].pending|
      requires peers_list[id].pending[k].BodyRead?
      modifies Peers(), this
      ensures Structure() && OwnBuffers() && AllIdle() && Shrunk(id)
      ensures View() == BodyArrived(Dequeue(old(View()), id, k), id, old(peers_list[id].pending[k].header), body)
    {
      assert peers_list[id].Idle();
      assert peers_list[id].pending[k].header == peers_list[id].header_buffer[..];
      var peer := BeginHandler(id, k);
      FinishBody(peer, body);
    }

    /** One turn of the event loop: the k-th handler that waits for peer `id` runs. */
    method RunHandler(id: int, k: nat, outcome: Outcome)
      requires Valid() && Enabled(View(), Complete(id, k, outcome))
      modifies this, Peers(), set i | i in peers_list :: peers_list[i].header_buffer
      ensures Structure() && OwnBuffers() && (status != Aborted ==> AllIdle()) && Shrunk(id)
      ensures View() == Completing(old(View()), id, k, outcome)
    {
      var op := peers_list[id].pending[k];
      assert View().peers[id] == peers_list[id].View();
      if op.Write? {
        RunSendHandler(id, k, outcome);
      } else if op.BodyRead? {
        if outcome.Failure? {
          RunBodyError(id, k);
        } else {
          RunBodyHandler(id, k, outcome.data);
        }
      } else {
        OnlyRead(peers_list[id].View(), k);
        RunHeaderHandler(id, k, outcome);
      }
    }

    /** Whoever is listed was listed before or is new. */
    twostate predicate Grown()
      reads this
    {
      forall i :: i in peers_list ==>
                    (i in old(peers_list) && peers_list[i] == old(peers_list)[i]) ||
                    (fresh(peers_list[i]) && fresh(peers_list[i].header_buffer))
    }

    /** One step of the server. */
    method Dispatch(step: Step)
      requires Valid() && Enabled(View(), step)
      modifies this, Peers(), set i | i in peers_list :: peers_list[i].header_buffer
      ensures Valid() && View() == Next(old(View()), step) && Grown()
      ensures step == Accept(false) ==> status == Status.Stopped
      ensures step.Complete? && ServerSteps.Breaks(old(View()), step, step.id) && step.id in peers_list ==>
                peers_list[step.id].error_happened && !peers_list[step.id].socket_open
    {
      StepKeeps(View(), step);
      ghost var before := View();
      if step.Complete? && ServerSteps.Breaks(before, step, step.id) {
        ServerSteps.ErrorReported(before, step.id, step.k, step.outcome);
      }
      match step
      case Accept(ok) => AcceptHandler(ok);
      case Complete(id, k, outcome) =>
        RunHandler(id, k, outcome);
        assert id in peers_list ==> View().peers[id] == peers_list[id].View();
    }

    /** `io_service.run`: the event loop goes through the completions the environment provides. */
    method Run(schedule: seq<Step>)
      requires Valid() && Possible(View(), schedule)
      modifies this, Peers(), set i | i in peers_list :: peers_list[i].header_buffer
      ensures Valid() && View() == ServerProtocol.Run(old(View()), schedule)
    {
      var n := 0;
      while n < |schedule|
        invariant 0 <= n <= |schedule| && Valid() && Grown()
        invariant Possible(View(), schedule[n..])
        invariant ServerProtocol.Run(View(), schedule[n..]) == ServerProtocol.Run(old(View()), schedule)
      {
        assert schedule[n..][0] == schedule[n] && schedule[n..][1..] == schedule[n + 1..];
        Dispatch(schedule[n]);
        n := n + 1;
      }
    }
  }
}
