/** Shutting down: once every socket is closed and no client is accepted any more, the handlers that
    are left empty the list, in whatever order they run. */
module ServerDrain {
  import opened Bytes
  import opened MessageLayers
  import opened Framing
  import opened ServerProtocol
  import opened ServerRuns

  // ---------- sums over the list ----------

  function Total(peers: map<int, Peer>, f: Peer -> nat): nat
    decreases |peers|
  {
    if peers == map[] then 0
    else
      var i := Least(peers.Keys);
      f(peers[i]) + Total(peers - {i}, f)
  }

  lemma {:induction false} TotalRemove(peers: map<int, Peer>, f: Peer -> nat, id: int)
    requires id in peers
    ensures Total(peers, f) == f(peers[id]) + Total(peers - {id}, f)
    decreases |peers|
  {
    var i := Least(peers.Keys);
    if i != id {
      TotalRemove(peers - {i}, f, id);
      TotalRemove(peers - {id}, f, i);
      assert peers - {i} - {id} == peers - {id} - {i};
    }
  }

  lemma TotalUpdate(peers: map<int, Peer>, f: Peer -> nat, id: int, p: Peer)
    requires id in peers
    ensures Total(peers[id := p], f) + f(peers[id]) == Total(peers, f) + f(p)
  {
    TotalRemove(peers, f, id);
    TotalRemove(peers[id := p], f, id);
    assert peers[id := p] - {id} == peers - {id};
  }

  lemma SizeWithout(peers: map<int, Peer>, i: int)
    requires i in peers
    ensures |peers - {i}| == |peers| - 1
  {
    assert (peers - {i}).Keys == peers.Keys - {i};
    assert |peers.Keys| == |peers| && |(peers - {i}).Keys| == |peers - {i}|;
  }

  lemma SizeByKeys(a: map<int, Peer>, b: map<int, Peer>)
    requires a.Keys == b.Keys
    ensures |a| == |b|
  {
    assert |a.Keys| == |a| && |b.Keys| == |b|;
  }

  /** If every peer weighs as much as before, or every peer one more, so does the sum. */
  lemma {:induction false} TotalShift(before: map<int, Peer>, after: map<int, Peer>, f: Peer -> nat, more: bool)
    requires before.Keys == after.Keys
    requires forall id :: id in before ==> f(after[id]) == f(before[id]) + if more then 1 else 0
    ensures Total(after, f) == Total(before, f) + if more then |before| else 0
    decreases |before|
  {
    if before == map[] {
      assert after == map[];
    } else {
      var i := Least(before.Keys);
      TotalRemove(before, f, i);
      TotalRemove(after, f, i);
      SizeWithout(before, i);
      assert (before - {i}).Keys == (after - {i}).Keys;
      TotalShift(before - {i}, after - {i}, f, more);
    }
  }

  // ---------- the measure ----------

  function Handlers(p: Peer): nat { |p.pending| }

  ghost predicate AllClosed(s: Server) {
    forall id :: id in s.peers ==> s.peers[id].closed
  }

  function Times(r: nat, c: nat): nat {
    if r == 0 then 0 else c + Times(r - 1, c)
  }

  lemma {:induction false} TimesGrows(r: nat, c: nat, r': nat, c': nat)
    requires r' <= r && c' <= c
    ensures Times(r', c') <= Times(r, c) && (r' < r ==> Times(r', c') + c <= Times(r, c))
  {
    if r' < r {
      TimesGrows(r - 1, c, r', c');
    } else if r > 0 {
      TimesGrows(r - 1, c, r' - 1, c');
    }
  }

  /** Reads that may still succeed weigh more than all the writes their broadcast can start. */
  function Measure(n: nat, rank: nat, handlers: nat): nat {
    Times(rank, n + 2) + handlers
  }

  function Potential(s: Server): nat {
    Measure(|s.peers|, Total(s.peers, Rank), Total(s.peers, Handlers))
  }

  lemma MeasureFalls(n: nat, rank: nat, handlers: nat, n': nat, rank': nat, handlers': nat)
    requires n' <= n
    requires (rank' <= rank && handlers' < handlers) || (rank' < rank && handlers' <= handlers + n)
    ensures Measure(n', rank', handlers') < Measure(n, rank, handlers)
  {
    TimesGrows(rank, n + 2, rank', n' + 2);
  }

  lemma DequeueWeights(s: Server, id: int, k: nat)
    requires id in s.peers && k < |s.peers[id].pending|
    ensures var t := Dequeue(s, id, k);
            Total(t.peers, Handlers) == Total(s.peers, Handlers) - 1 &&
            Total(t.peers, Rank) == Total(s.peers, Rank) - s.peers[id].pending[k].Rank() &&
            |t.peers| == |s.peers|
  {
    var q := Dequeue(s, id, k).peers[id];
    SumWithout(s.peers[id].pending, k, RankWeight);
    ChangeWeights(s.peers, id, q);
  }

  /** A change of one peer that makes it neither heavier nor busier. */
  lemma ChangeWeights(peers: map<int, Peer>, id: int, p: Peer)
    requires id in peers
    ensures Total(peers[id := p], Handlers) + Handlers(peers[id]) == Total(peers, Handlers) + Handlers(p)
    ensures Total(peers[id := p], Rank) + Rank(peers[id]) == Total(peers, Rank) + Rank(p)
    ensures |peers[id := p]| == |peers|
  {
    TotalUpdate(peers, Handlers, id, p);
    TotalUpdate(peers, Rank, id, p);
    assert peers[id := p].Keys == peers.Keys;
    SizeByKeys(peers[id := p], peers);
  }

  lemma SettleWeights(s: Server, id: int)
    requires id in s.peers
    ensures var v := Settle(s, id);
            |v.peers| <= |s.peers| && Total(v.peers, Handlers) == Total(s.peers, Handlers) &&
            Total(v.peers, Rank) == Total(s.peers, Rank)
  {
    if s.peers[id].pending == [] {
      TotalRemove(s.peers, Handlers, id);
      TotalRemove(s.peers, Rank, id);
      SizeWithout(s.peers, id);
    }
  }

  lemma FailingWeights(s: Server, id: int)
    requires id in s.peers
    ensures var u := Failing(s, id);
            id in u.peers && |u.peers| == |s.peers| && Total(u.peers, Handlers) == Total(s.peers, Handlers) &&
            Total(u.peers, Rank) == Total(s.peers, Rank)
  {
    ChangeWeights(s.peers, id, s.peers[id].(failed := true, closed := true));
  }

  lemma EndedDrains(s: Server, id: int, k: nat, failing: bool)
    requires AllClosed(s) && id in s.peers && k < |s.peers[id].pending|
    ensures var v := Ended(s, id, k, failing);
            AllClosed(v) && Potential(v) < Potential(s)
  {
    var t := Dequeue(s, id, k);
    var u := if failing then Failing(t, id) else t;
    var v := Settle(u, id);
    DequeueWeights(s, id, k);
    FailingWeights(t, id);
    SettleWeights(u, id);
    MeasureFalls(|s.peers|, Total(s.peers, Rank), Total(s.peers, Handlers),
                 |v.peers|, Total(v.peers, Rank), Total(v.peers, Handlers));
  }

  lemma HeaderDrains(s: Server, id: int, k: nat, h: seq<Byte>)
    requires AllClosed(s) && Enabled(s, Complete(id, k, Success(h)))
    requires s.peers[id].pending[k].HeaderRead? && Judge(h).Body?
    ensures var v := HeaderArrived(Dequeue(s, id, k), id, h);
            AllClosed(v) && Potential(v) < Potential(s)
  {
    var t := Dequeue(s, id, k);
    var op := StartBodyRead(t.peers[id], h, Judge(h).length);
    var v := Queue(t, id, op);
    DequeueWeights(s, id, k);
    QueuedFacts(t.peers[id], op);
    ChangeWeights(t.peers, id, Queued(t.peers[id], op));
    MeasureFalls(|s.peers|, Total(s.peers, Rank), Total(s.peers, Handlers),
                 |v.peers|, Total(v.peers, Rank), Total(v.peers, Handlers));
  }

  lemma WithWriteWeights(peers: map<int, Peer>, frame: seq<Byte>)
    ensures var q := WithWrite(peers, frame);
            |q| == |peers| && Total(q, Handlers) == Total(peers, Handlers) + |peers| &&
            Total(q, Rank) == Total(peers, Rank)
  {
    var q := WithWrite(peers, frame);
    forall i | i in peers
      ensures Rank(q[i]) == Rank(peers[i]) && Handlers(q[i]) == Handlers(peers[i]) + 1
    {
      QueuedFacts(peers[i], Write(frame));
    }
    assert q.Keys == peers.Keys;
    SizeByKeys(q, peers);
    TotalShift(peers, q, Rank, false);
    TotalShift(peers, q, Handlers, true);
  }

  lemma BroadcastDrains(s: Server, id: int, k: nat, body: seq<Byte>)
    requires AllClosed(s) && Enabled(s, Complete(id, k, Success(body)))
    requires s.peers[id].pending[k].BodyRead?
    ensures var v := Relayed(s, id, k, body);
            AllClosed(v) && Potential(v) < Potential(s)
  {
    var t := Dequeue(s, id, k);
    var peers := WithWrite(t.peers, Packet(body));
    var v := Relayed(s, id, k, body);
    DequeueWeights(s, id, k);
    WithWriteWeights(t.peers, Packet(body));
    QueuedFacts(peers[id], HeaderRead(false));
    ChangeWeights(peers, id, Queued(peers[id], HeaderRead(false)));
    MeasureFalls(|s.peers|, Total(s.peers, Rank), Total(s.peers, Handlers),
                 |v.peers|, Total(v.peers, Rank), Total(v.peers, Handlers));
  }

  /** Every handler that runs on a closed server lowers the measure, unless it aborts the run. */
  lemma StepDrains(s: Server, id: int, k: nat, outcome: Outcome)
    requires Inv(s) && AllClosed(s) && Enabled(s, Complete(id, k, outcome))
    ensures var v := Completing(s, id, k, outcome);
            v.status == Aborted || (AllClosed(v) && Potential(v) < Potential(s))
  {
    match outcome
    case Failure => EndedDrains(s, id, k, true);
    case Success(data) =>
      match s.peers[id].pending[k]
      case Write(_) => EndedDrains(s, id, k, false);
      case BodyRead(_, _, _) => BroadcastDrains(s, id, k, data);
      case HeaderRead(_) =>
        match Judge(data)
        case Reject => EndedDrains(s, id, k, true);
        case LengthError =>
        case Body(_) => HeaderDrains(s, id, k, data);
  }

  ghost predicate OnlyHandlers(steps: seq<Step>) {
    forall i :: 0 <= i < |steps| ==> steps[i].Complete?
  }

  /** A step that an event loop without new clients could still take. */
  ghost predicate CanContinue(s: Server) {
    exists id, k, outcome :: Enabled(s, Complete(id, k, outcome))
  }

  lemma SomethingLeft(s: Server)
    requires Inv(s) && s.status == Running && s.peers != map[]
    ensures CanContinue(s)
  {
    assert Enabled(s, Complete(Least(s.peers.Keys), 0, Failure));
  }

  lemma NothingLeft(s: Server)
    requires Inv(s) && s.status == Running && !CanContinue(s)
    ensures s.peers == map[]
  {
    if s.peers != map[] {
      SomethingLeft(s);
    }
  }

  lemma BusyMeasure(s: Server, id: int)
    requires id in s.peers && s.peers[id].pending != []
    ensures Potential(s) > 0
  {
    TotalRemove(s.peers, Handlers, id);
  }

  lemma {:induction false} DrainBound(s: Server, steps: seq<Step>)
    requires Inv(s) && AllClosed(s) && Possible(s, steps) && OnlyHandlers(steps)
    ensures |steps| <= Potential(s)
    decreases |steps|
  {
    if steps != [] {
      var step := steps[0];
      var v := Next(s, step);
      StepKeeps(s, step);
      StepDrains(s, step.id, step.k, step.outcome);
      BusyMeasure(s, step.id);
      if v.status != Aborted {
        DrainBound(v, steps[1..]);
      }
    }
  }

  /** Once every socket is closed, at most `Potential(s)` handlers run, in any order; and when none
      can run any more the list is empty, unless an exception has left the event loop. */
  lemma DrainTerminates(s: Server, steps: seq<Step>)
    requires Inv(s) && AllClosed(s) && Possible(s, steps) && OnlyHandlers(steps)
    ensures |steps| <= Potential(s)
    ensures var v := Run(s, steps);
            v.status == Running && !CanContinue(v) ==> v.peers == map[]
  {
    DrainBound(s, steps);
    RunKeeps(s, steps);
    var v := Run(s, steps);
    if v.status == Running && !CanContinue(v) {
      NothingLeft(v);
    }
  }
}
