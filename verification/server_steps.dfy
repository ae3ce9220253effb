/** What each step of the server does, seen from outside: who is reported, who leaves, who gains what, and
    when it stops. And what that comes to over whole runs.
 */
module ServerSteps {
  import opened Bytes
  import opened MessageLayers
  import opened Framing
  import opened Collecting
  import opened ServerProtocol
  import opened ServerRuns
  import opened ServerReader

  // ---------- accepting ----------

  /** A client that connects is listed under an id that was never in use, with one read outstanding; nobody
      else notices. */
  lemma AcceptAdmits(s: Server)
    requires Inv(s) && Enabled(s, Accept(true))
    ensures var v, id := Next(s, Accept(true)), s.lastId + 1;
            LifeOf(s.trace, id).Unborn? && id !in s.peers && id in v.peers &&
            v.peers[id].pending == [HeaderRead(true)] && !v.peers[id].failed && !v.peers[id].closed &&
            v.peers - {id} == s.peers && v.lastId == id && v.status == Running &&
            v.trace == s.trace + [Accepted(id)]
  {
    assert Fate(s, s.lastId + 1);
  }

  /** After a failed accept the server takes no step any more, and nothing else has happened. */
  lemma AcceptFails(s: Server)
    requires Enabled(s, Accept(false))
    ensures var v := Next(s, Accept(false));
            (forall step :: !Enabled(v, step)) &&
            v.peers == s.peers && v.trace == s.trace && v.lastId == s.lastId
  {}

  // ---------- errors ----------

  /** An operation of `id` fails, or a header that it has sent is refused. */
  predicate Breaks(s: Server, step: Step, id: int)
    requires Enabled(s, step)
  {
    step.Complete? && step.id == id &&
    (step.outcome.Failure? || (s.peers[id].pending[step.k].HeaderRead? && Judge(step.outcome.data) == Reject))
  }

  /** The first of these reports the peer and shuts its socket down; a later one changes neither. */
  lemma ErrorReported(s: Server, id: int, k: nat, outcome: Outcome)
    requires Inv(s) && Enabled(s, Complete(id, k, outcome)) && Breaks(s, Complete(id, k, outcome), id)
    ensures var v := Next(s, Complete(id, k, outcome));
            (id in v.peers ==> v.peers[id].failed && v.peers[id].closed &&
                               v.peers[id].pending == Without(s.peers[id].pending, k)) &&
            v.trace == s.trace + (if LifeOf(s.trace, id).Open? then [ConnectionError(id)] else []) +
                       (if id in v.peers then [] else [CanDelete(id)])
  {
    assert Fate(s, id);
  }

  /** A finished write reports nothing. */
  lemma WriteFinished(s: Server, id: int, k: nat, data: seq<Byte>)
    requires Inv(s) && Enabled(s, Complete(id, k, Success(data))) && s.peers[id].pending[k].Write?
    ensures var v := Next(s, Complete(id, k, Success(data)));
            (id in v.peers ==> v.peers[id] == s.peers[id].(pending := Without(s.peers[id].pending, k))) &&
            v.trace == s.trace + (if id in v.peers then [] else [CanDelete(id)])
  {}

  // ---------- leaving the list, and what the others notice ----------

  /** The handler has started the next read. */
  predicate ReadsOn(op: Pending, outcome: Outcome)
    requires CanEnd(op, outcome)
  {
    outcome.Success? && (op.BodyRead? || (op.HeaderRead? && Judge(outcome.data).Body?))
  }

  /** A peer leaves the list exactly when its last handler has run and has started no read. */
  lemma LeavesLast(s: Server, id: int, k: nat, outcome: Outcome)
    requires Inv(s) && Enabled(s, Complete(id, k, outcome))
    ensures var v := Next(s, Complete(id, k, outcome)); var op := s.peers[id].pending[k];
            v.status != Aborted ==> (id in v.peers <==> |s.peers[id].pending| > 1 || ReadsOn(op, outcome))
  {
    var op := s.peers[id].pending[k];
    assert |Without(s.peers[id].pending, k)| == |s.peers[id].pending| - 1;
    if op.BodyRead? && outcome.Success? {
      RelayedPeers(s, id, k, outcome.data);
    }
  }

  /** Everybody else stays listed as it is, but for a relayed frame to write. */
  lemma OthersNotice(s: Server, id: int, k: nat, outcome: Outcome, i: int)
    requires Inv(s) && Enabled(s, Complete(id, k, outcome)) && i != id
    ensures var v := Next(s, Complete(id, k, outcome));
            (i in v.peers <==> i in s.peers) && v.lastId == s.lastId &&
            (i in s.peers ==>
               v.peers[i] == if s.peers[id].pending[k].BodyRead? && outcome.Success?
                             then s.peers[i].(pending := s.peers[i].pending + [Write(Packet(outcome.data))])
                             else s.peers[i])
  {
    if s.peers[id].pending[k].BodyRead? && outcome.Success? {
      RelayedPeers(s, id, k, outcome.data);
    }
  }

  /** On a socket that is shut down, a body can still arrive after its header exactly if it has no bytes. */
  lemma ClosedBody(s: Server, id: int, k: nat, h: seq<Byte>, body: seq<Byte>)
    requires Inv(s) && Enabled(s, Complete(id, k, Success(h))) && s.peers[id].pending[k].HeaderRead?
    requires s.peers[id].closed && Judge(h) == Body(|body|)
    ensures var v := Next(s, Complete(id, k, Success(h)));
            id in v.peers && v.peers[id].pending != [] &&
            (Enabled(v, Complete(id, |v.peers[id].pending| - 1, Success(body))) <==> body == [])
  {}

  // ---------- the order of a broadcast ----------

  /** The frame to each of the ids once, in ascending order. */
  ghost predicate InTurn(sends: seq<Event>, ids: set<int>, frame: seq<Byte>) {
    && (forall k :: 0 <= k < |sends| ==> sends[k].Sent? && sends[k].frame == frame && sends[k].id in ids)
    && (forall i :: i in ids ==> Sent(i, frame) in sends)
    && (forall j, k :: 0 <= j < k < |sends| ==> sends[j].id < sends[k].id)
  }

  lemma FirstInTurn(i: int, later: seq<Event>, ids: set<int>, frame: seq<Byte>)
    requires i in ids && (forall j :: j in ids ==> i <= j) && InTurn(later, ids - {i}, frame)
    ensures InTurn([Sent(i, frame)] + later, ids, frame)
  {
    var sends := [Sent(i, frame)] + later;
    forall j | j in ids
      ensures Sent(j, frame) in sends
    {
      if j == i {
        assert sends[0] == Sent(i, frame);
      } else {
        assert Sent(j, frame) in later;
      }
    }
    forall k | 0 <= k < |sends|
      ensures sends[k].Sent? && sends[k].frame == frame && sends[k].id in ids && (k > 0 ==> sends[k].id > i)
    {
      assert k > 0 ==> sends[k] == later[k - 1];
    }
  }

  /** A broadcast goes to each listed peer once, in the order of the list. */
  lemma {:induction false} SendsInOrder(ids: set<int>, frame: seq<Byte>)
    ensures InTurn(Sends(ids, frame), ids, frame)
    decreases |ids|
  {
    if ids != {} {
      var i := Least(ids);
      SendsInOrder(ids - {i}, frame);
      FirstInTurn(i, Sends(ids - {i}, frame), ids, frame);
    }
  }

  // ---------- the status ----------

  /** A header that announces less than its own length. */
  predicate Overflows(s: Server, step: Step)
    requires Enabled(s, step)
  {
    step.Complete? && step.outcome.Success? && s.peers[step.id].pending[step.k].HeaderRead? &&
    Judge(step.outcome.data) == LengthError
  }

  lemma StepStatus(s: Server, step: Step)
    requires Enabled(s, step)
    ensures Next(s, step).status ==
            if step == Accept(false) then Status.Stopped else if Overflows(s, step) then Aborted else Running
  {}

  /** The last step of a run is such a header. */
  predicate EndsInOverflow(s: Server, steps: seq<Step>)
    requires Possible(s, steps)
    decreases |steps|
  {
    steps != [] && if |steps| == 1 then Overflows(s, steps[0]) else EndsInOverflow(Next(s, steps[0]), steps[1..])
  }

  /** A run is stopped exactly by a failed accept, aborted exactly by a header that is too small for
      itself, and either ends it. */
  lemma {:induction false} RunStatus(s: Server, steps: seq<Step>)
    requires Possible(s, steps) && s.status == Running
    ensures Run(s, steps).status == Status.Stopped <==> steps != [] && steps[|steps| - 1] == Accept(false)
    ensures Run(s, steps).status == Aborted <==> EndsInOverflow(s, steps)
    decreases |steps|
  {
    if steps != [] {
      StepStatus(s, steps[0]);
      var v := Next(s, steps[0]);
      assert Run(s, steps) == Run(v, steps[1..]);
      if |steps| > 1 {
        assert Enabled(v, steps[1..][0]);
        RunStatus(v, steps[1..]);
      } else {
        assert steps[1..] == [];
      }
    }
  }

  // ---------- whole runs: ids, errors ----------

  function Accepts(steps: seq<Step>): nat {
    if steps == [] then 0 else (if steps[0] == Accept(true) then 1 else 0) + Accepts(steps[1..])
  }

  /** Every accept uses up one id, and nothing else does. */
  lemma {:induction false} IdsCounted(s: Server, steps: seq<Step>)
    requires Possible(s, steps)
    ensures Run(s, steps).lastId == s.lastId + Accepts(steps)
    decreases |steps|
  {
    if steps != [] {
      IdsCounted(Next(s, steps[0]), steps[1..]);
    }
  }

  predicate Broke(s: Server, steps: seq<Step>, id: int)
    requires Possible(s, steps)
    decreases |steps|
  {
    steps != [] && (Breaks(s, steps[0], id) || Broke(Next(s, steps[0]), steps[1..], id))
  }

  lemma {:induction false} FailureOnRecord(trace: seq<Event>, id: int)
    requires LifeOf(trace, id).Failed?
    ensures ConnectionError(id) in trace
  {
    var before, e := trace[..|trace| - 1], trace[|trace| - 1];
    assert trace == before + [e];
    if LifeOf(before, id).Failed? {
      FailureOnRecord(before, id);
    }
  }

  lemma StepReportsErrors(s: Server, step: Step, id: int)
    requires Inv(s) && Enabled(s, step)
    ensures ConnectionError(id) in Next(s, step).trace <==> ConnectionError(id) in s.trace || Breaks(s, step, id)
  {
    if step.Complete? {
      assert Fate(s, step.id);
      if Breaks(s, step, step.id) {
        if LifeOf(s.trace, step.id).Failed? {
          FailureOnRecord(s.trace, step.id);
        }
        ErrorReported(s, step.id, step.k, step.outcome);
      } else if s.peers[step.id].pending[step.k].BodyRead? {
        RelayedTrace(s, step.id, step.k, step.outcome.data);
        SendsOnly(s.peers.Keys, Packet(step.outcome.data));
      } else if s.peers[step.id].pending[step.k].Write? {
        WriteFinished(s, step.id, step.k, step.outcome.data);
      }
    }
  }

  lemma {:induction false} RunReportsErrors(s: Server, steps: seq<Step>, id: int)
    requires Inv(s) && Possible(s, steps)
    ensures ConnectionError(id) in Run(s, steps).trace <==> ConnectionError(id) in s.trace || Broke(s, steps, id)
    decreases |steps|
  {
    if steps != [] {
      StepKeeps(s, steps[0]);
      StepReportsErrors(s, steps[0], id);
      RunReportsErrors(Next(s, steps[0]), steps[1..], id);
    }
  }

  /** In every run a peer has been reported if and only if one of its operations has failed or one of its
      headers has been refused. */
  lemma ErrorsExact(steps: seq<Step>, id: int)
    requires Possible(INITIAL, steps)
    ensures ConnectionError(id) in Run(INITIAL, steps).trace <==> Broke(INITIAL, steps, id)
  {
    InitialInv();
    RunReportsErrors(INITIAL, steps, id);
  }

  // ---------- whole runs: every frame has one handler ----------

  function FrameOf(op: Pending): seq<seq<Byte>> {
    if op.Write? then [op.frame] else []
  }

  /** The frames whose writes have not ended. */
  function Unwritten(s: Server, id: int): seq<seq<Byte>> {
    if id in s.peers then Collect(s.peers[id].pending, FrameOf) else []
  }

  /** The frames whose writes have ended, well or badly. */
  function WrittenBy(s: Server, step: Step, id: int): seq<seq<Byte>>
    requires Enabled(s, step)
  {
    if step.Complete? && step.id == id then FrameOf(s.peers[id].pending[step.k]) else []
  }

  function Written(s: Server, steps: seq<Step>, id: int): seq<seq<Byte>>
    requires Possible(s, steps)
    decreases |steps|
  {
    if steps == [] then [] else WrittenBy(s, steps[0], id) + Written(Next(s, steps[0]), steps[1..], id)
  }

  ghost predicate Accounted(s: Server, id: int, done: seq<seq<Byte>>) {
    multiset(SentTo(s.trace, id)) == multiset(done) + multiset(Unwritten(s, id))
  }

  lemma UnwrittenParts(front: seq<Pending>, op: Pending, back: seq<Pending>)
    ensures multiset(Collect(front + [op] + back, FrameOf)) ==
            multiset(FrameOf(op)) + multiset(Collect(front + back, FrameOf))
  {
    CollectAppend(front + [op], back, FrameOf);
    CollectSnoc(front, op, FrameOf);
    CollectAppend(front, back, FrameOf);
    MiddleOut(Collect(front, FrameOf), FrameOf(op), Collect(back, FrameOf));
  }

  lemma PartsOf(pending: seq<Pending>, k: nat)
    requires k < |pending|
    ensures pending == pending[..k] + [pending[k]] + pending[k + 1..]
  {}

  lemma UnwrittenWithout(pending: seq<Pending>, k: nat)
    requires k < |pending|
    ensures multiset(Collect(pending, FrameOf)) ==
            multiset(FrameOf(pending[k])) + multiset(Collect(Without(pending, k), FrameOf))
  {
    PartsOf(pending, k);
    UnwrittenParts(pending[..k], pending[k], pending[k + 1..]);
  }

  lemma MiddleOut<T>(front: seq<T>, middle: seq<T>, back: seq<T>)
    ensures multiset(front + middle + back) == multiset(middle) + multiset(front + back)
  {}

  lemma SameSent(trace: seq<Event>, more: seq<Event>, id: int)
    requires |more| <= 2 && forall k :: 0 <= k < |more| ==> !more[k].Sent?
    ensures SentTo(trace + more, id) == SentTo(trace, id)
  {
    if more == [] {
      assert trace + more == trace;
    } else {
      Appended(trace, more[0], id);
      if |more| == 1 {
        assert trace + more == trace + [more[0]];
      } else {
        Appended(trace + [more[0]], more[1], id);
        assert trace + more == trace + [more[0]] + [more[1]];
      }
    }
  }

  /** Nothing is sent; what has just been written waits no more. */
  lemma Settled(s: Server, v: Server, id: int, done: seq<seq<Byte>>, more: seq<seq<Byte>>)
    requires Accounted(s, id, done) && SentTo(v.trace, id) == SentTo(s.trace, id)
    requires multiset(Unwritten(s, id)) == multiset(more) + multiset(Unwritten(v, id))
    ensures Accounted(v, id, done + more)
  {}

  lemma AcceptUnwritten(s: Server, id: int)
    requires Inv(s) && Enabled(s, Accept(true))
    ensures Unwritten(Next(s, Accept(true)), id) == Unwritten(s, id)
  {
    assert Fate(s, s.lastId + 1);
    CollectOne(HeaderRead(true), FrameOf);
  }

  lemma AcceptSent(s: Server, id: int)
    requires Enabled(s, Accept(true))
    ensures SentTo(Next(s, Accept(true)).trace, id) == SentTo(s.trace, id)
  {
    SameSent(s.trace, [Accepted(s.lastId + 1)], id);
  }

  lemma AcceptAccounts(s: Server, ok: bool, id: int, done: seq<seq<Byte>>)
    requires Inv(s) && Enabled(s, Accept(ok)) && Accounted(s, id, done)
    ensures Accounted(Next(s, Accept(ok)), id, done)
  {
    if ok {
      AcceptUnwritten(s, id);
      AcceptSent(s, id);
    } else {
      AcceptFails(s);
    }
  }

  /** What is left of the peer whose handler has run. */
  lemma UnwrittenAfter(s: Server, v: Server, id: int, k: nat, more: seq<Pending>)
    requires id in s.peers && k < |s.peers[id].pending| && Collect(more, FrameOf) == []
    requires if id in v.peers then v.peers[id].pending == Without(s.peers[id].pending, k) + more
             else |s.peers[id].pending| == 1
    ensures multiset(Unwritten(s, id)) == multiset(FrameOf(s.peers[id].pending[k])) + multiset(Unwritten(v, id))
  {
    UnwrittenWithout(s.peers[id].pending, k);
    if id in v.peers {
      CollectAppend(Without(s.peers[id].pending, k), more, FrameOf);
    } else {
      assert Without(s.peers[id].pending, k) == [];
    }
  }

  lemma EndedSent(s: Server, i: int, k: nat, outcome: Outcome, id: int)
    requires Inv(s) && Enabled(s, Complete(i, k, outcome))
    requires outcome.Failure? || !s.peers[i].pending[k].BodyRead?
    ensures SentTo(Next(s, Complete(i, k, outcome)).trace, id) == SentTo(s.trace, id)
  {
    var v := Next(s, Complete(i, k, outcome));
    var said := if i in v.peers then [] else [CanDelete(i)];
    if Breaks(s, Complete(i, k, outcome), i) {
      ErrorReported(s, i, k, outcome);
      var told := if LifeOf(s.trace, i).Open? then [ConnectionError(i)] else [];
      Associative(s.trace, told, said);
      SameSent(s.trace, told + said, id);
    } else if s.peers[i].pending[k].Write? {
      WriteFinished(s, i, k, outcome.data);
      SameSent(s.trace, said, id);
    } else {
      assert v.trace == s.trace;
    }
  }

  lemma EndedUnwritten(s: Server, id: int, k: nat, outcome: Outcome)
    requires Inv(s) && Enabled(s, Complete(id, k, outcome))
    requires outcome.Failure? || !s.peers[id].pending[k].BodyRead?
    ensures var v := Next(s, Complete(id, k, outcome));
            multiset(Unwritten(s, id)) == multiset(FrameOf(s.peers[id].pending[k])) + multiset(Unwritten(v, id))
  {
    var v, op := Next(s, Complete(id, k, outcome)), s.peers[id].pending[k];
    if ReadsOn(op, outcome) {
      var next := StartBodyRead(s.peers[id], outcome.data, Judge(outcome.data).length);
      CollectOne(next, FrameOf);
      UnwrittenAfter(s, v, id, k, [next]);
    } else {
      EndedPending(s, id, k, outcome);
      UnwrittenAfter(s, v, id, k, []);
    }
  }

  lemma EndedPending(s: Server, id: int, k: nat, outcome: Outcome)
    requires Inv(s) && Enabled(s, Complete(id, k, outcome)) && !ReadsOn(s.peers[id].pending[k], outcome)
    ensures var v := Next(s, Complete(id, k, outcome));
            if id in v.peers then v.peers[id].pending == Without(s.peers[id].pending, k) + []
            else |s.peers[id].pending| == 1
  {
    assert |Without(s.peers[id].pending, k)| == |s.peers[id].pending| - 1;
    assert Without(s.peers[id].pending, k) + [] == Without(s.peers[id].pending, k);
  }

  lemma EndedAccounts(s: Server, i: int, k: nat, outcome: Outcome, id: int, done: seq<seq<Byte>>)
    requires Inv(s) && Enabled(s, Complete(i, k, outcome)) && Accounted(s, id, done)
    requires outcome.Failure? || !s.peers[i].pending[k].BodyRead?
    ensures Accounted(Next(s, Complete(i, k, outcome)), id, done + WrittenBy(s, Complete(i, k, outcome), id))
  {
    var v := Next(s, Complete(i, k, outcome));
    EndedSent(s, i, k, outcome, id);
    if i == id {
      EndedUnwritten(s, id, k, outcome);
    } else {
      OthersNotice(s, i, k, outcome, id);
    }
    Settled(s, v, id, done, WrittenBy(s, Complete(i, k, outcome), id));
  }

  lemma RelaySent(s: Server, i: int, k: nat, body: seq<Byte>, id: int)
    requires Inv(s) && Enabled(s, Complete(i, k, Success(body))) && s.peers[i].pending[k].BodyRead?
    ensures SentTo(Relayed(s, i, k, body).trace, id) == SentTo(s.trace, id) + if id in s.peers then [Packet(body)] else []
  {
    var e := Received(i, s.peers[i].pending[k].header + body);
    RelayedTrace(s, i, k, body);
    SameSent(s.trace, [e], id);
    forall j | j in s.peers.Keys
      ensures LifeOf(s.trace + [e], j).Listed()
    {
      assert Fate(s, j);
      Appended(s.trace, e, j);
    }
    AppendedSends(s.trace + [e], s.peers.Keys, Packet(body), id);
  }

  lemma RelayUnwritten(s: Server, i: int, k: nat, body: seq<Byte>, id: int)
    requires i in s.peers && k < |s.peers[i].pending| && s.peers[i].pending[k].BodyRead?
    ensures multiset(Unwritten(Relayed(s, i, k, body), id)) ==
            multiset(Unwritten(s, id)) + multiset(if id in s.peers then [Packet(body)] else [])
  {
    var w := Write(Packet(body));
    RelayedPeers(s, i, k, body);
    if id == i {
      UnwrittenWithout(s.peers[i].pending, k);
      var kept, next := Without(s.peers[i].pending, k), StartHeaderRead(s.peers[i]);
      CollectSnoc(kept + [w], next, FrameOf);
      CollectSnoc(kept, w, FrameOf);
      assert Collect(kept, FrameOf) + [Packet(body)] + [] == Collect(kept, FrameOf) + [Packet(body)];
    } else if id in s.peers {
      CollectSnoc(s.peers[id].pending, w, FrameOf);
    }
  }

  lemma RelayAccounts(s: Server, i: int, k: nat, body: seq<Byte>, id: int, done: seq<seq<Byte>>)
    requires Inv(s) && Enabled(s, Complete(i, k, Success(body))) && s.peers[i].pending[k].BodyRead?
    requires Accounted(s, id, done)
    ensures Accounted(Relayed(s, i, k, body), id, done)
  {
    RelaySent(s, i, k, body, id);
    RelayUnwritten(s, i, k, body, id);
  }

  lemma StepAccounts(s: Server, step: Step, id: int, done: seq<seq<Byte>>)
    requires Inv(s) && Enabled(s, step) && Accounted(s, id, done)
    ensures Accounted(Next(s, step), id, done + WrittenBy(s, step, id))
  {
    assert done + [] == done;
    match step
    case Accept(ok) => AcceptAccounts(s, ok, id, done);
    case Complete(i, k, outcome) =>
      if outcome.Success? && s.peers[i].pending[k].BodyRead? {
        RelayAccounts(s, i, k, outcome.data, id, done);
      } else {
        EndedAccounts(s, i, k, outcome, id, done);
      }
  }

  lemma {:induction false} RunAccounts(s: Server, steps: seq<Step>, id: int, done: seq<seq<Byte>>)
    requires Inv(s) && Possible(s, steps) && Accounted(s, id, done)
    ensures Accounted(Run(s, steps), id, done + Written(s, steps, id))
    decreases |steps|
  {
    if steps == [] {
      assert done + Written(s, steps, id) == done;
    } else {
      var v, more := Next(s, steps[0]), WrittenBy(s, steps[0], id);
      StepKeeps(s, steps[0]);
      StepAccounts(s, steps[0], id, done);
      RunAccounts(v, steps[1..], id, done + more);
      Associative(done, more, Written(v, steps[1..], id));
    }
  }

  /** In every run each frame handed to a socket has exactly one handler, which has run or still waits. */
  lemma WritesConserved(steps: seq<Step>, id: int)
    requires Possible(INITIAL, steps)
    ensures var s := Run(INITIAL, steps);
            multiset(SentTo(s.trace, id)) == multiset(Written(INITIAL, steps, id)) + multiset(Unwritten(s, id))
  {
    InitialInv();
    assert Accounted(INITIAL, id, []);
    RunAccounts(INITIAL, steps, id, []);
    assert [] + Written(INITIAL, steps, id) == Written(INITIAL, steps, id);
  }
}
