/** What the server makes of the bytes that one peer sends, in every run and however the work of other
    peers comes in between.
 */
module ServerReader {
  import opened Bytes
  import opened MessageLayers
  import opened Framing
  import opened ServerProtocol
  import opened ServerRuns

  /** The payloads received from `id`. */
  function From(trace: seq<Event>, id: int): seq<seq<Byte>> {
    if trace == [] then []
    else From(trace[..|trace| - 1], id) + PayloadIn(trace[|trace| - 1], id)
  }

  function PayloadIn(e: Event, id: int): seq<seq<Byte>> {
    if e.Received? && e.id == id && |e.frame| >= SEGMENTATION_HEADER then [e.frame[SEGMENTATION_HEADER..]] else []
  }

  /** The bytes that a step, or a run, reads from the socket of `id`. */
  function ReadBy(s: Server, step: Step, id: int): seq<Byte>
    requires Enabled(s, step)
  {
    if step.Complete? && step.id == id && step.outcome.Success? && s.peers[id].pending[step.k].IsRead()
    then step.outcome.data else []
  }

  function Consumed(s: Server, steps: seq<Step>, id: int): seq<Byte>
    requires Possible(s, steps)
    decreases |steps|
  {
    if steps == [] then []
    else ReadBy(s, steps[0], id) + Consumed(Next(s, steps[0]), steps[1..], id)
  }

  // ---------- traces ----------

  lemma FromOne(trace: seq<Event>, e: Event, id: int)
    ensures From(trace + [e], id) == From(trace, id) + PayloadIn(e, id)
    ensures PayloadIn(e, id) == [] ==> From(trace + [e], id) == From(trace, id)
  {
    assert (trace + [e])[..|trace|] == trace;
  }

  lemma {:induction false} FromSends(trace: seq<Event>, ids: set<int>, frame: seq<Byte>, id: int)
    ensures From(trace + Sends(ids, frame), id) == From(trace, id)
    decreases |ids|
  {
    if ids == {} {
      assert trace + Sends(ids, frame) == trace;
    } else {
      var e, rest := Sent(Least(ids), frame), ids - {Least(ids)};
      FromOne(trace, e, id);
      FromSends(trace + [e], rest, frame, id);
      Associative(trace, [e], Sends(rest, frame));
    }
  }

  /** Every frame in the log is a well-formed packet. */
  ghost predicate Logged(trace: seq<Event>) {
    forall k :: 0 <= k < |trace| && trace[k].Received? ==> IsPacket(trace[k].frame)
  }

  ghost predicate IsPacket(frame: seq<Byte>) {
    |frame| >= SEGMENTATION_HEADER && Fits(frame[SEGMENTATION_HEADER..]) && frame == Packet(frame[SEGMENTATION_HEADER..])
  }

  lemma {:induction false} SendsOnly(ids: set<int>, frame: seq<Byte>)
    ensures forall k :: 0 <= k < |Sends(ids, frame)| ==> Sends(ids, frame)[k].Sent?
    decreases |ids|
  {
    if ids != {} {
      SendsOnly(ids - {Least(ids)}, frame);
    }
  }

  // ---------- the invariant ----------

  /** The read that is outstanding goes on where the bytes read so far have ended. */
  ghost predicate GoesOn(p: Peer, rest: seq<Byte>) {
    forall k :: 0 <= k < |p.pending| ==> Continues(p.pending[k], rest)
  }

  predicate Continues(op: Pending, rest: seq<Byte>) {
    match op
    case HeaderRead(_) => rest == []
    case BodyRead(h, _, _) => rest == h
    case Write(_) => true
  }

  /** A refused header is the last thing read, and has its consequence. */
  ghost predicate Standing(s: Server, id: int, rest: seq<Byte>) {
    && (rest == [] || |rest| == SEGMENTATION_HEADER)
    && (EndingOf(rest) == Rejected ==> id !in s.peers || s.peers[id].failed)
    && (EndingOf(rest) == LengthErrorThrown ==> s.status == Aborted)
    && (id in s.peers ==> GoesOn(s.peers[id], rest))
  }

  /** After `got` has been read from `id`: the payloads received so far, and `rest` of one packet. */
  ghost predicate Reader(s: Server, id: int, got: seq<Byte>, rest: seq<Byte>) {
    && Cut(From(s.trace, id), rest, got)
    && Standing(s, id, rest)
    && (!(1 <= id <= s.lastId) ==> got == [])
  }

  ghost predicate Reading(s: Server, id: int, got: seq<Byte>) {
    exists rest :: Reader(s, id, got, rest)
  }

  // ---------- every step keeps it ----------

  lemma GoesOnWithout(p: Peer, k: nat, rest: seq<Byte>)
    requires GoesOn(p, rest) && k < |p.pending|
    ensures GoesOn(p.(pending := Without(p.pending, k)), rest)
  {}

  lemma GoesOnQueued(p: Peer, op: Pending, rest: seq<Byte>)
    requires GoesOn(p, rest) && Continues(op, rest)
    ensures GoesOn(Queued(p, op), rest)
  {}

  /** Errors and finished writes. */
  lemma EndedReader(s: Server, id: int, k: nat, failing: bool, i: int, got: seq<Byte>, rest: seq<Byte>)
    requires Inv(s) && s.status == Running && id in s.peers && k < |s.peers[id].pending| && Reader(s, i, got, rest)
    ensures Reader(Ended(s, id, k, failing), i, got, rest)
  {
    if i == id {
      GoesOnWithout(s.peers[id], k, rest);
    }
    EndedFrom(s, id, k, failing, i);
  }

  lemma EndedFrom(s: Server, id: int, k: nat, failing: bool, i: int)
    requires id in s.peers && k < |s.peers[id].pending|
    ensures From(Ended(s, id, k, failing).trace, i) == From(s.trace, i)
  {
    var t := Dequeue(s, id, k);
    FromOne(s.trace, ConnectionError(id), i);
    FromOne((if failing then Failing(t, id) else t).trace, CanDelete(id), i);
  }

  lemma AcceptReader(s: Server, ok: bool, i: int, got: seq<Byte>, rest: seq<Byte>)
    requires Inv(s) && s.status == Running && Reader(s, i, got, rest)
    ensures Reader(Accepting(s, ok), i, got, rest)
  {
    FromOne(s.trace, Accepted(s.lastId + 1), i);
  }

  /** After the dequeue of the only read there is none. */
  lemma OnlyRead(p: Peer, k: nat)
    requires PeerOk(p) && k < |p.pending| && p.pending[k].IsRead()
    ensures forall rest :: GoesOn(p.(pending := Without(p.pending, k)), rest)
  {
    DequeueFacts(p, k);
    NoReads(Without(p.pending, k));
  }

  lemma {:induction false} NoReads(pending: seq<Pending>)
    requires Sum(pending, ReadWeight) == 0
    ensures forall j :: 0 <= j < |pending| ==> pending[j].Write?
  {
    if pending != [] {
      NoReads(pending[1..]);
      assert forall j :: 1 <= j < |pending| ==> pending[j] == pending[1..][j - 1];
    }
  }

  /** What happens at one peer is nothing to the reading from another, which may get a frame to write. */
  lemma ReaderElsewhere(s: Server, v: Server, i: int, got: seq<Byte>, rest: seq<Byte>, frame: seq<Byte>)
    requires Reader(s, i, got, rest) && v.lastId == s.lastId && From(v.trace, i) == From(s.trace, i)
    requires s.status == Aborted ==> v.status == Aborted
    requires i in v.peers ==> i in s.peers && v.peers[i].failed == s.peers[i].failed
    requires i in v.peers ==> v.peers[i] == s.peers[i] || v.peers[i] == Queued(s.peers[i], Write(frame))
    ensures Reader(v, i, got, rest)
  {
    if i in v.peers && v.peers[i] != s.peers[i] {
      GoesOnQueued(s.peers[i], Write(frame), rest);
    }
  }

  lemma HeaderReader(s: Server, id: int, k: nat, h: seq<Byte>, got: seq<Byte>, rest: seq<Byte>)
    requires Inv(s) && Enabled(s, Complete(id, k, Success(h))) && s.peers[id].pending[k].HeaderRead?
    requires Reader(s, id, got, rest)
    ensures Reader(HeaderArrived(Dequeue(s, id, k), id, h), id, got + h, h)
  {
    assert Fate(s, id) && Continues(s.peers[id].pending[k], rest);
    CutHeader(From(s.trace, id), got, h);
    EndedFrom(s, id, k, true, id);
    HeaderStanding(s, id, k, h);
  }

  lemma HeaderStanding(s: Server, id: int, k: nat, h: seq<Byte>)
    requires Inv(s) && Enabled(s, Complete(id, k, Success(h))) && s.peers[id].pending[k].HeaderRead?
    ensures Standing(HeaderArrived(Dequeue(s, id, k), id, h), id, h)
  {
    assert h[..SEGMENTATION_HEADER] == h;
    var t := Dequeue(s, id, k);
    assert PeerOk(s.peers[id]);
    OnlyRead(s.peers[id], k);
    assert GoesOn(t.peers[id], h);
    if Judge(h).Body? {
      GoesOnQueued(t.peers[id], StartBodyRead(t.peers[id], h, Judge(h).length), h);
    }
  }

  lemma EndedLeavesAlone(s: Server, id: int, k: nat, failing: bool, i: int)
    requires id in s.peers && k < |s.peers[id].pending| && i != id
    ensures var v := Ended(s, id, k, failing);
            v.lastId == s.lastId && v.status == s.status && (i in v.peers ==> i in s.peers && v.peers[i] == s.peers[i])
  {}

  lemma HeaderElsewhere(s: Server, id: int, k: nat, h: seq<Byte>, i: int, got: seq<Byte>, rest: seq<Byte>)
    requires Enabled(s, Complete(id, k, Success(h))) && s.peers[id].pending[k].HeaderRead?
    requires Reader(s, i, got, rest) && i != id
    ensures Reader(HeaderArrived(Dequeue(s, id, k), id, h), i, got, rest)
  {
    var v := HeaderArrived(Dequeue(s, id, k), id, h);
    if Judge(h) == Reject {
      EndedLeavesAlone(s, id, k, true, i);
      EndedFrom(s, id, k, true, i);
      ReaderElsewhere(s, Ended(s, id, k, true), i, got, rest, []);
    } else {
      ReaderElsewhere(s, v, i, got, rest, []);
    }
  }

  lemma RelayedFrom(s: Server, id: int, k: nat, body: seq<Byte>, i: int)
    requires Inv(s) && Enabled(s, Complete(id, k, Success(body))) && s.peers[id].pending[k].BodyRead?
    ensures From(Relayed(s, id, k, body).trace, i) == if i == id then From(s.trace, i) + [body] else From(s.trace, i)
  {
    assert PeerOk(s.peers[id]);
    var h := s.peers[id].pending[k].header;
    RelayedTrace(s, id, k, body);
    FromOne(s.trace, Received(id, h + body), i);
    assert (h + body)[SEGMENTATION_HEADER..] == body;
    FromSends(s.trace + [Received(id, h + body)], s.peers.Keys, Packet(body), i);
  }

  lemma BodyReader(s: Server, id: int, k: nat, body: seq<Byte>, got: seq<Byte>, rest: seq<Byte>)
    requires Inv(s) && Enabled(s, Complete(id, k, Success(body))) && s.peers[id].pending[k].BodyRead?
    requires Reader(s, id, got, rest)
    ensures Reader(Relayed(s, id, k, body), id, got + body, [])
  {
    assert Fate(s, id) && PeerOk(s.peers[id]) && Continues(s.peers[id].pending[k], rest);
    RelayedPeers(s, id, k, body);
    RelayedFrom(s, id, k, body, id);
    CutBody(From(s.trace, id), got, rest, body);
    var p := s.peers[id].(pending := Without(s.peers[id].pending, k));
    OnlyRead(s.peers[id], k);
    GoesOnQueued(p, Write(Packet(body)), []);
    GoesOnQueued(Queued(p, Write(Packet(body))), StartHeaderRead(s.peers[id]), []);
  }

  lemma BodyElsewhere(s: Server, id: int, k: nat, body: seq<Byte>, i: int, got: seq<Byte>, rest: seq<Byte>)
    requires Inv(s) && Enabled(s, Complete(id, k, Success(body))) && s.peers[id].pending[k].BodyRead?
    requires Reader(s, i, got, rest) && i != id
    ensures Reader(Relayed(s, id, k, body), i, got, rest)
  {
    RelayedPeers(s, id, k, body);
    RelayedFrom(s, id, k, body, i);
    var v := Relayed(s, id, k, body);
    assert i in v.peers ==> i in s.peers && v.peers[i] == Queued(s.peers[i], Write(Packet(body)));
    assert v.lastId == s.lastId && v.status == s.status;
    ReaderElsewhere(s, v, i, got, rest, Packet(body));
  }

  lemma CompleteReads(s: Server, i: int, k: nat, data: seq<Byte>, id: int, got: seq<Byte>, rest: seq<Byte>)
    requires Inv(s) && Enabled(s, Complete(i, k, Success(data))) && s.peers[i].pending[k].IsRead()
    requires Reader(s, id, got, rest)
    ensures Reading(Completing(s, i, k, Success(data)), id, if i == id then got + data else got)
  {
    if s.peers[i].pending[k].BodyRead? {
      if i == id { BodyReader(s, id, k, data, got, rest); } else { BodyElsewhere(s, i, k, data, id, got, rest); }
    } else {
      if i == id { HeaderReader(s, id, k, data, got, rest); } else { HeaderElsewhere(s, i, k, data, id, got, rest); }
    }
  }

  lemma StepReads(s: Server, step: Step, id: int, got: seq<Byte>, rest: seq<Byte>)
    requires Inv(s) && Enabled(s, step) && Reader(s, id, got, rest)
    ensures Reading(Next(s, step), id, got + ReadBy(s, step, id))
  {
    assert got + [] == got;
    match step
    case Accept(ok) => AcceptReader(s, ok, id, got, rest);
    case Complete(i, k, outcome) =>
      if outcome.Failure? || s.peers[i].pending[k].Write? {
        EndedReader(s, i, k, outcome.Failure?, id, got, rest);
        assert Next(s, step) == Ended(s, i, k, outcome.Failure?) && ReadBy(s, step, id) == [];
      } else {
        CompleteReads(s, i, k, outcome.data, id, got, rest);
      }
  }

  lemma {:induction false} RunReads(s: Server, steps: seq<Step>, id: int, got: seq<Byte>, rest: seq<Byte>)
    requires Inv(s) && Possible(s, steps) && Reader(s, id, got, rest)
    ensures Reading(Run(s, steps), id, got + Consumed(s, steps, id))
    decreases |steps|
  {
    if steps == [] {
      assert got + Consumed(s, steps, id) == got;
      assert Reader(Run(s, steps), id, got + Consumed(s, steps, id), rest);
    } else {
      var t, more := Next(s, steps[0]), ReadBy(s, steps[0], id);
      StepKeeps(s, steps[0]);
      StepReads(s, steps[0], id, got, rest);
      var rest' :| Reader(t, id, got + more, rest');
      RunReads(t, steps[1..], id, got + more, rest');
      Associative(got, more, Consumed(t, steps[1..], id));
      assert got + Consumed(s, steps, id) == got + more + Consumed(t, steps[1..], id);
    }
  }

  lemma LoggedMore(trace: seq<Event>, more: seq<Event>)
    requires Logged(trace) && Logged(more)
    ensures Logged(trace + more)
  {}

  lemma RelayLogs(s: Server, id: int, k: nat, body: seq<Byte>)
    requires Inv(s) && Enabled(s, Complete(id, k, Success(body))) && s.peers[id].pending[k].BodyRead?
    requires Logged(s.trace)
    ensures Logged(Relayed(s, id, k, body).trace)
  {
    var h := s.peers[id].pending[k].header;
    assert PeerOk(s.peers[id]);
    RelayIdentical(h, body);
    JudgeByHeader(h, |body|);
    assert (h + body)[SEGMENTATION_HEADER..] == body;
    RelayedTrace(s, id, k, body);
    SendsOnly(s.peers.Keys, Packet(body));
    LoggedMore(s.trace, [Received(id, h + body)]);
    LoggedMore(s.trace + [Received(id, h + body)], Sends(s.peers.Keys, Packet(body)));
  }

  lemma StepLogs(s: Server, step: Step)
    requires Inv(s) && Enabled(s, step) && Logged(s.trace)
    ensures Logged(Next(s, step).trace)
  {
    if step.Complete? && step.outcome.Success? && s.peers[step.id].pending[step.k].BodyRead? {
      RelayLogs(s, step.id, step.k, step.outcome.data);
    }
  }

  lemma {:induction false} RunLogs(s: Server, steps: seq<Step>)
    requires Inv(s) && Possible(s, steps) && Logged(s.trace)
    ensures Logged(Run(s, steps).trace)
    decreases |steps|
  {
    if steps != [] {
      StepKeeps(s, steps[0]);
      StepLogs(s, steps[0]);
      RunLogs(Next(s, steps[0]), steps[1..]);
    }
  }

  /** In every run, what the server receives from a peer are the payloads of the bytes it has read from
      it; a refused header ends the peer, and one that announces less than its own length the run. Every
      frame it relays is a packet, byte for byte. */
  lemma ServerReads(steps: seq<Step>, id: int)
    requires Possible(INITIAL, steps)
    ensures var s, got := Run(INITIAL, steps), Consumed(INITIAL, steps, id);
            (exists rest :: Reader(s, id, got, rest) && Deliver(got).payloads == From(s.trace, id) + EmptyDue(rest)) &&
            (Deliver(got).ending == Rejected ==> id !in s.peers || s.peers[id].failed) &&
            (Deliver(got).ending == LengthErrorThrown ==> s.status == Aborted) &&
            Logged(s.trace)
  {
    InitialInv();
    assert Reader(INITIAL, id, [], []);
    RunReads(INITIAL, steps, id, [], []);
    RunLogs(INITIAL, steps);
    var got := Consumed(INITIAL, steps, id);
    assert [] + got == got;
    var rest :| Reader(Run(INITIAL, steps), id, got, rest);
    DeliverCut(From(Run(INITIAL, steps).trace, id), rest, got);
  }
}
