/** The server as a state machine over the completions of its asynchronous operations
    (src/server/dispatcher.cpp, src/server/remotepeer.cpp), and what holds over whole runs.

    A peer here is the list of handlers that wait for it, whether it has reported an error, and whether
    its socket is shut down. There are no reference counts and no callbacks: module `Dispatcher`
    runs the code that has them and is proved to take these steps.
 */
module ServerProtocol {
  import opened Bytes
  import opened MessageLayers
  import opened Framing

  // ---------- states ----------

  /** An operation whose handler the event loop holds. A read that is not `live` was started on a
      socket that is shut down, so it cannot succeed. */
  datatype Pending =
    | HeaderRead(live: bool)
    | BodyRead(header: seq<Byte>, length: nat, live: bool)
    | Write(frame: seq<Byte>)
  {
    predicate IsRead() { !Write? }

    /** How many reads in a row may still succeed once the socket is shut down. */
    function Rank(): nat {
      match this
      case HeaderRead(live) => if live then 2 else 0
      case BodyRead(_, _, live) => if live then 1 else 0
      case Write(_) => 0
    }
  }

  datatype Peer = Peer(pending: seq<Pending>, failed: bool, closed: bool)

  /** What can be observed of a server: events handled by it and frames handed to sockets. */
  datatype Event =
    | Accepted(id: int)
    | Received(id: int, frame: seq<Byte>)
    | Sent(id: int, frame: seq<Byte>)
    | ConnectionError(id: int)
    | CanDelete(id: int)

  /** `Stopped` after a failed accept; `Aborted` when an exception leaves the event loop. */
  datatype Status = Running | Stopped | Aborted

  datatype Server = Server(peers: map<int, Peer>, lastId: int, trace: seq<Event>, status: Status)

  const INITIAL := Server(map[], 0, [], Running)

  // ---------- steps ----------

  datatype Outcome = Success(data: seq<Byte>) | Failure

  /** A client connects (or accepting fails), or the k-th handler waiting for a peer runs. */
  datatype Step = Accept(ok: bool) | Complete(id: int, k: nat, outcome: Outcome)

  /** A read succeeds exactly with its buffer full. */
  predicate CanEnd(op: Pending, outcome: Outcome) {
    outcome.Success? ==>
      match op
      case HeaderRead(live) => live && |outcome.data| == SEGMENTATION_HEADER
      case BodyRead(_, n, live) => live && |outcome.data| == n
      case Write(_) => true
  }

  predicate Enabled(s: Server, step: Step) {
    s.status == Running &&
    (step.Complete? ==>
       step.id in s.peers && step.k < |s.peers[step.id].pending| &&
       CanEnd(s.peers[step.id].pending[step.k], step.outcome))
  }

  function Without(pending: seq<Pending>, k: nat): seq<Pending>
    requires k < |pending|
  {
    pending[..k] + pending[k + 1..]
  }

  function Dequeue(s: Server, id: int, k: nat): Server
    requires id in s.peers && k < |s.peers[id].pending|
  {
    s.(peers := s.peers[id := s.peers[id].(pending := Without(s.peers[id].pending, k))])
  }

  function Queued(p: Peer, op: Pending): Peer {
    p.(pending := p.pending + [op])
  }

  function Queue(s: Server, id: int, op: Pending): Server
    requires id in s.peers
  {
    s.(peers := s.peers[id := Queued(s.peers[id], op)])
  }

  function StartHeaderRead(p: Peer): Pending { HeaderRead(!p.closed) }

  /** An empty buffer is full from the start, even on a socket that is shut down. */
  function StartBodyRead(p: Peer, header: seq<Byte>, n: nat): Pending {
    BodyRead(header, n, !p.closed || n == 0)
  }

  /** The first error of a peer is reported and shuts its socket down; later ones are not. */
  function Failing(s: Server, id: int): Server
    requires id in s.peers
  {
    if s.peers[id].failed then s
    else s.(peers := s.peers[id := s.peers[id].(failed := true, closed := true)],
            trace := s.trace + [ConnectionError(id)])
  }

  /** A peer for which no handler waits any more leaves the list. */
  function Settle(s: Server, id: int): Server
    requires id in s.peers
  {
    if s.peers[id].pending == []
    then s.(peers := s.peers - {id}, trace := s.trace + [CanDelete(id)])
    else s
  }

  lemma NonEmpty(ids: set<int>)
    ensures ids == {} || exists i :: i in ids
  {
    if !(exists i :: i in ids) {
      assert ids == {};
    }
  }

  predicate IsLeast(i: int, ids: set<int>) { i in ids && forall j :: j in ids ==> i <= j }

  lemma {:induction false} LeastExists(ids: set<int>)
    requires ids != {}
    ensures exists i :: IsLeast(i, ids)
    decreases |ids|
  {
    NonEmpty(ids);
    var i :| i in ids;
    if ids == {i} {
      assert IsLeast(i, ids);
    } else {
      LeastExists(ids - {i});
      var j :| IsLeast(j, ids - {i});
      LeastOfBoth(i, j, ids);
    }
  }

  lemma LeastOfBoth(i: int, j: int, ids: set<int>)
    requires i in ids && IsLeast(j, ids - {i})
    ensures IsLeast(if i <= j then i else j, ids)
  {
    assert forall l :: l in ids ==> l == i || l in ids - {i};
  }

  function Least(ids: set<int>): (i: int)
    requires ids != {}
    ensures i in ids && forall j :: j in ids ==> i <= j
  {
    LeastExists(ids);
    var i :| IsLeast(i, ids);
    i
  }

  /** The frame goes to the peers in the order of their ids. */
  function Sends(ids: set<int>, frame: seq<Byte>): seq<Event>
    decreases |ids|
  {
    if ids == {} then []
    else [Sent(Least(ids), frame)] + Sends(ids - {Least(ids)}, frame)
  }

  function WithWrite(peers: map<int, Peer>, frame: seq<Byte>): map<int, Peer> {
    map id | id in peers :: Queued(peers[id], Write(frame))
  }

  function Broadcast(s: Server, frame: seq<Byte>): Server {
    s.(peers := WithWrite(s.peers, frame), trace := s.trace + Sends(s.peers.Keys, frame))
  }

  function HeaderArrived(s: Server, id: int, h: seq<Byte>): Server
    requires id in s.peers && |h| == SEGMENTATION_HEADER
  {
    match Judge(h)
    case Reject => Settle(Failing(s, id), id)
    case LengthError => s.(status := Aborted)
    case Body(n) => Queue(s, id, StartBodyRead(s.peers[id], h, n))
  }

  function BodyArrived(s: Server, id: int, header: seq<Byte>, body: seq<Byte>): Server
    requires id in s.peers
  {
    var heard := Broadcast(s.(trace := s.trace + [Received(id, header + body)]), Packet(body));
    Queue(heard, id, StartHeaderRead(heard.peers[id]))
  }

  /** The effect of an accept. Ids are not reused. */
  function Accepting(s: Server, ok: bool): Server {
    if !ok then s.(status := Status.Stopped)
    else
      var id := s.lastId + 1;
      s.(peers := s.peers[id := Peer([HeaderRead(true)], false, false)], lastId := id,
         trace := s.trace + [Accepted(id)])
  }

  /** The handler of a header read runs on the state in which it waits no more. */
  function HeaderDone(s: Server, id: int, outcome: Outcome): Server
    requires id in s.peers && (outcome.Success? ==> |outcome.data| == SEGMENTATION_HEADER)
  {
    match outcome
    case Failure => Settle(Failing(s, id), id)
    case Success(h) => HeaderArrived(s, id, h)
  }

  function BodyDone(s: Server, id: int, header: seq<Byte>, outcome: Outcome): Server
    requires id in s.peers
  {
    match outcome
    case Failure => Settle(Failing(s, id), id)
    case Success(body) => BodyArrived(s, id, header, body)
  }

  function WriteDone(s: Server, id: int, outcome: Outcome): Server
    requires id in s.peers
  {
    match outcome
    case Failure => Settle(Failing(s, id), id)
    case Success(_) => Settle(s, id)
  }

  function Completing(s: Server, id: int, k: nat, outcome: Outcome): Server
    requires id in s.peers && k < |s.peers[id].pending| && CanEnd(s.peers[id].pending[k], outcome)
  {
    match s.peers[id].pending[k]
    case HeaderRead(_) => HeaderDone(Dequeue(s, id, k), id, outcome)
    case BodyRead(h, _, _) => BodyDone(Dequeue(s, id, k), id, h, outcome)
    case Write(_) => WriteDone(Dequeue(s, id, k), id, outcome)
  }

  function Next(s: Server, step: Step): Server
    requires Enabled(s, step)
  {
    match step
    case Accept(ok) => Accepting(s, ok)
    case Complete(id, k, outcome) => Completing(s, id, k, outcome)
  }

  // ---------- runs ----------

  predicate Possible(s: Server, steps: seq<Step>)
    decreases |steps|
  {
    steps == [] || (Enabled(s, steps[0]) && Possible(Next(s, steps[0]), steps[1..]))
  }

  function Run(s: Server, steps: seq<Step>): Server
    requires Possible(s, steps)
    decreases |steps|
  {
    if steps == [] then s else Run(Next(s, steps[0]), steps[1..])
  }

  // ---------- what a trace says about one peer ----------

  /** The life of an id. `Failed(n)`: it has reported its error and then contributed n more frames. */
  datatype Life = Unborn | Open | Failed(late: nat) | Erased | Illegal {
    predicate Listed() { Open? || Failed? }

    /** The events an id may take part in, in the only order allowed. */
    function After(e: Event): Life {
      match (this, e)
      case (Unborn, Accepted(_)) => Open
      case (Open, Received(_, _)) => Open
      case (Open, Sent(_, _)) => Open
      case (Open, ConnectionError(_)) => Failed(0)
      case (Failed(n), Received(_, _)) => Failed(n + 1)
      case (Failed(n), Sent(_, _)) => Failed(n)
      case (Failed(_), CanDelete(_)) => Erased
      case _ => Illegal
    }
  }

  function LifeOf(trace: seq<Event>, id: int): Life {
    if trace == [] then Unborn
    else
      var n := |trace| - 1;
      if trace[n].id == id then LifeOf(trace[..n], id).After(trace[n]) else LifeOf(trace[..n], id)
  }

  /** The global log: every frame the server has received. */
  function Frames(trace: seq<Event>): seq<seq<Byte>> {
    if trace == [] then []
    else
      var n := |trace| - 1;
      Frames(trace[..n]) + if trace[n].Received? then [trace[n].frame] else []
  }

  /** The frames received by the server while `id` was on its list. */
  function Heard(trace: seq<Event>, id: int): seq<seq<Byte>> {
    if trace == [] then []
    else
      var n := |trace| - 1;
      Heard(trace[..n], id) +
      if trace[n].Received? && LifeOf(trace[..n], id).Listed() then [trace[n].frame] else []
  }

  /** The frames handed to the socket of `id`. */
  function SentTo(trace: seq<Event>, id: int): seq<seq<Byte>> {
    if trace == [] then []
    else
      var n := |trace| - 1;
      SentTo(trace[..n], id) + if trace[n].Sent? && trace[n].id == id then [trace[n].frame] else []
  }

  /** The length of the log when `id` was accepted. */
  function JoinedAt(trace: seq<Event>, id: int): nat {
    if trace == [] then 0
    else
      var n := |trace| - 1;
      if trace[n] == Accepted(id) then |Frames(trace[..n])| else JoinedAt(trace[..n], id)
  }

  /** The length of the log when `id` was erased, or now. */
  function LeftAt(trace: seq<Event>, id: int): nat {
    if trace == [] then 0
    else
      var n := |trace| - 1;
      if LifeOf(trace[..n], id).Erased? then LeftAt(trace[..n], id) else |Frames(trace)|
  }

  lemma Appended(trace: seq<Event>, e: Event, id: int)
    ensures LifeOf(trace + [e], id) == if e.id == id then LifeOf(trace, id).After(e) else LifeOf(trace, id)
    ensures Frames(trace + [e]) == Frames(trace) + if e.Received? then [e.frame] else []
    ensures Heard(trace + [e], id) ==
            Heard(trace, id) + if e.Received? && LifeOf(trace, id).Listed() then [e.frame] else []
    ensures SentTo(trace + [e], id) == SentTo(trace, id) + if e.Sent? && e.id == id then [e.frame] else []
  {
    assert (trace + [e])[..|trace|] == trace;
  }

  /** A broadcast to listed peers changes nobody's life and nobody's share of the log. */
  lemma {:induction false} AppendedSends(trace: seq<Event>, ids: set<int>, frame: seq<Byte>, id: int)
    requires forall i :: i in ids ==> LifeOf(trace, i).Listed()
    ensures var t := trace + Sends(ids, frame);
            LifeOf(t, id) == LifeOf(trace, id) && Frames(t) == Frames(trace) && Heard(t, id) == Heard(trace, id) &&
            SentTo(t, id) == SentTo(trace, id) + if id in ids then [frame] else []
    decreases |ids|
  {
    if ids == {} {
      assert trace + Sends(ids, frame) == trace;
    } else {
      var i := Least(ids);
      var t := trace + [Sent(i, frame)];
      forall j | j in ids - {i}
        ensures LifeOf(t, j).Listed()
      {
        Appended(trace, Sent(i, frame), j);
      }
      Appended(trace, Sent(i, frame), id);
      AppendedSends(t, ids - {i}, frame, id);
      Associative(trace, [Sent(i, frame)], Sends(ids - {i}, frame));
    }
  }

  /** A received frame and its broadcast to everyone listed: all of them hear it and are sent it. */
  lemma AppendedRelay(trace: seq<Event>, id: int, ids: set<int>, frame: seq<Byte>, i: int)
    requires forall j :: j in ids <==> LifeOf(trace, j).Listed()
    requires id in ids
    ensures var t := trace + [Received(id, frame)] + Sends(ids, frame);
            LifeOf(t, i) == (if i == id then LifeOf(trace, id).After(Received(id, frame)) else LifeOf(trace, i)) &&
            (SentTo(trace, i) == Heard(trace, i) ==> SentTo(t, i) == Heard(t, i))
  {
    var logged := trace + [Received(id, frame)];
    forall j | j in ids
      ensures LifeOf(logged, j).Listed()
    {
      Appended(trace, Received(id, frame), j);
    }
    Appended(trace, Received(id, frame), i);
    AppendedSends(logged, ids, frame, i);
  }

  /** What `id` has heard is a contiguous part of the log, up to its end as long as the id is listed. */
  ghost predicate HearsSlice(trace: seq<Event>, id: int) {
    var life, from, to := LifeOf(trace, id), JoinedAt(trace, id), LeftAt(trace, id);
    && from <= to <= |Frames(trace)|
    && Heard(trace, id) == (if life.Unborn? then [] else Frames(trace)[from..to])
    && (!life.Erased? ==> to == |Frames(trace)|)
    && (life.Unborn? ==> from == 0)
  }

  lemma SliceGrows<T>(s: seq<T>, x: T, from: nat, to: nat)
    requires from <= to <= |s|
    ensures (s + [x])[from..to] == s[from..to] && (s + [x])[from..|s| + 1] == s[from..] + [x]
  {}

  lemma ReceivedHeard(before: seq<Event>, e: Event, id: int)
    requires e.Received? && HearsSlice(before, id) && LifeOf(before + [e], id) != Illegal
    ensures HearsSlice(before + [e], id)
  {
    assert (before + [e])[..|before|] == before;
    SliceGrows(Frames(before), e.frame, JoinedAt(before, id), LeftAt(before, id));
  }

  lemma OtherHeard(before: seq<Event>, e: Event, id: int)
    requires !e.Received? && HearsSlice(before, id) && LifeOf(before + [e], id) != Illegal
    ensures HearsSlice(before + [e], id)
  {
    assert (before + [e])[..|before|] == before;
    assert Frames(before + [e]) == Frames(before);
    assert Heard(before + [e], id) == Heard(before, id);
  }

  /** While an id is on the list it hears a contiguous part of the log. */
  lemma {:induction false} HeardIsSlice(trace: seq<Event>, id: int)
    requires LifeOf(trace, id) != Illegal
    ensures JoinedAt(trace, id) <= LeftAt(trace, id) <= |Frames(trace)|
    ensures Heard(trace, id) ==
            if LifeOf(trace, id).Unborn? then [] else Frames(trace)[JoinedAt(trace, id)..LeftAt(trace, id)]
    ensures !LifeOf(trace, id).Erased? ==> LeftAt(trace, id) == |Frames(trace)|
    ensures LifeOf(trace, id).Unborn? ==> JoinedAt(trace, id) == 0
  {
    if trace != [] {
      var before, e := trace[..|trace| - 1], trace[|trace| - 1];
      assert trace == before + [e];
      HeardIsSlice(before, id);
      if e.Received? {
        ReceivedHeard(before, e, id);
      } else {
        OtherHeard(before, e, id);
      }
    }
  }
}
