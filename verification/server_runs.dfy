/** What holds in every run of the server. */
module ServerRuns {
  import opened Bytes
  import opened MessageLayers
  import opened Framing
  import opened ServerProtocol

  // ---------- sums over handlers ----------

  function Sum(pending: seq<Pending>, f: Pending -> nat): nat {
    if pending == [] then 0 else f(pending[0]) + Sum(pending[1..], f)
  }

  function ReadWeight(op: Pending): nat { if op.IsRead() then 1 else 0 }

  function RankWeight(op: Pending): nat { op.Rank() }

  function Reads(p: Peer): nat { Sum(p.pending, ReadWeight) }

  function Rank(p: Peer): nat { Sum(p.pending, RankWeight) }

  lemma {:induction false} SumConcat(a: seq<Pending>, b: seq<Pending>, f: Pending -> nat)
    ensures Sum(a + b, f) == Sum(a, f) + Sum(b, f)
  {
    if a == [] {
      assert a + b == b;
    } else {
      SumConcat(a[1..], b, f);
      assert (a + b)[1..] == a[1..] + b;
    }
  }

  lemma SumQueued(a: seq<Pending>, op: Pending, f: Pending -> nat)
    ensures Sum(a + [op], f) == Sum(a, f) + f(op)
  {
    SumConcat(a, [op], f);
    assert [op][1..] == [];
  }

  lemma SumWithout(a: seq<Pending>, k: nat, f: Pending -> nat)
    requires k < |a|
    ensures Sum(a, f) == Sum(Without(a, k), f) + f(a[k])
  {
    var front, back := a[..k], a[k..];
    assert a == front + back && back[1..] == a[k + 1..];
    SumConcat(front, back, f);
    SumConcat(front, back[1..], f);
  }

  // ---------- the invariant ----------

  /** A header that was accepted belongs to the body being read. */
  ghost predicate OpOk(op: Pending) {
    op.BodyRead? ==> |op.header| == SEGMENTATION_HEADER && Judge(op.header) == Body(op.length)
  }

  /** At most one read is outstanding, exactly one while no error has been reported, and the socket
      is shut down exactly when an error has been reported. */
  ghost predicate PeerOk(p: Peer) {
    && p.failed == p.closed
    && Reads(p) <= 1
    && (!p.failed ==> Reads(p) == 1)
    && (forall i :: 0 <= i < |p.pending| ==> OpOk(p.pending[i]))
    && (!p.closed ==> forall i :: 0 <= i < |p.pending| && p.pending[i].IsRead() ==> p.pending[i].live)
  }

  /** The life of an id agrees with the list, and a frame can still follow the error only once. */
  ghost predicate Fate(s: Server, id: int) {
    match LifeOf(s.trace, id)
    case Unborn => id !in s.peers && !(1 <= id <= s.lastId)
    case Open => 1 <= id <= s.lastId && id in s.peers && !s.peers[id].failed
    case Failed(late) => 1 <= id <= s.lastId && id in s.peers && s.peers[id].failed &&
                         late + (if Rank(s.peers[id]) > 0 then 1 else 0) <= 1
    case Erased => 1 <= id <= s.lastId && id !in s.peers
    case Illegal => false
  }

  ghost predicate InOrder(s: Server, id: int) {
    SentTo(s.trace, id) == Heard(s.trace, id)
  }

  ghost predicate PeersOk(s: Server) {
    forall id :: id in s.peers ==> PeerOk(s.peers[id]) && s.peers[id].pending != []
  }

  ghost predicate Inv(s: Server) {
    && s.lastId >= 0
    && (s.status != Aborted ==> PeersOk(s))
    && (forall id :: Fate(s, id))
    && (forall id :: InOrder(s, id))
  }

  // ---------- every step keeps it ----------

  lemma DequeueFacts(p: Peer, k: nat)
    requires PeerOk(p) && k < |p.pending|
    ensures var q := p.(pending := Without(p.pending, k));
            Reads(p) == Reads(q) + ReadWeight(p.pending[k]) && Rank(p) == Rank(q) + p.pending[k].Rank() &&
            (forall i :: 0 <= i < |q.pending| ==> OpOk(q.pending[i])) &&
            (!q.closed ==> forall i :: 0 <= i < |q.pending| && q.pending[i].IsRead() ==> q.pending[i].live)
  {
    SumWithout(p.pending, k, ReadWeight);
    SumWithout(p.pending, k, RankWeight);
  }

  lemma QueuedFacts(p: Peer, op: Pending)
    ensures Reads(Queued(p, op)) == Reads(p) + ReadWeight(op)
    ensures Rank(Queued(p, op)) == Rank(p) + op.Rank()
  {
    SumQueued(p.pending, op, ReadWeight);
    SumQueued(p.pending, op, RankWeight);
  }

  /** Shared end of most handlers: the peer reports (or not), and leaves if nothing waits for it. */
  function Ended(s: Server, id: int, k: nat, failing: bool): Server
    requires id in s.peers && k < |s.peers[id].pending|
  {
    var t := Dequeue(s, id, k);
    Settle(if failing then Failing(t, id) else t, id)
  }

  lemma EndedFate(s: Server, id: int, k: nat, failing: bool, i: int)
    requires Inv(s) && s.status == Running && id in s.peers && k < |s.peers[id].pending|
    requires !failing ==> s.peers[id].pending[k].Write?
    ensures Fate(Ended(s, id, k, failing), i) && InOrder(Ended(s, id, k, failing), i)
  {
    assert Fate(s, i) && InOrder(s, i);
    var t := Dequeue(s, id, k);
    var u := if failing then Failing(t, id) else t;
    DequeueFacts(s.peers[id], k);
    Appended(t.trace, ConnectionError(id), i);
    assert Fate(u, i) && InOrder(u, i);
    Appended(u.trace, CanDelete(id), i);
  }

  lemma SettleKeeps(s: Server, id: int, k: nat, failing: bool)
    requires Inv(s) && s.status == Running && id in s.peers && k < |s.peers[id].pending|
    requires !failing ==> s.peers[id].pending[k].Write?
    ensures Inv(Ended(s, id, k, failing))
  {
    DequeueFacts(s.peers[id], k);
    forall i
      ensures Fate(Ended(s, id, k, failing), i) && InOrder(Ended(s, id, k, failing), i)
    {
      EndedFate(s, id, k, failing, i);
    }
  }

  lemma BodyStartKeeps(s: Server, id: int, k: nat, h: seq<Byte>)
    requires Inv(s) && Enabled(s, Complete(id, k, Success(h))) && s.peers[id].pending[k].HeaderRead?
    requires Judge(h).Body?
    ensures Inv(HeaderArrived(Dequeue(s, id, k), id, h))
  {
    var t := Dequeue(s, id, k);
    var op := StartBodyRead(t.peers[id], h, Judge(h).length);
    var u := Queue(t, id, op);
    DequeueFacts(s.peers[id], k);
    QueuedFacts(t.peers[id], op);
    forall i
      ensures Fate(u, i) && InOrder(u, i)
    {
      assert Fate(s, i) && InOrder(s, i);
    }
  }

  /** A relayed frame is byte for byte the received one. */
  lemma RelayIdentical(h: seq<Byte>, body: seq<Byte>)
    requires |h| == SEGMENTATION_HEADER && Judge(h) == Body(|body|)
    ensures Packet(body) == h + body
  {
    JudgeByHeader(h, |body|);
  }

  lemma {:induction false} RankBounded(pending: seq<Pending>)
    ensures Sum(pending, RankWeight) <= 2 * Sum(pending, ReadWeight)
  {
    if pending != [] {
      RankBounded(pending[1..]);
    }
  }

  /** What a broadcast queues: a write for every peer, and for the originator its next read. */
  function Relayed(s: Server, id: int, k: nat, body: seq<Byte>): Server
    requires id in s.peers && k < |s.peers[id].pending| && s.peers[id].pending[k].BodyRead?
  {
    BodyArrived(Dequeue(s, id, k), id, s.peers[id].pending[k].header, body)
  }

  lemma RelayedPeers(s: Server, id: int, k: nat, body: seq<Byte>)
    requires id in s.peers && k < |s.peers[id].pending| && s.peers[id].pending[k].BodyRead?
    ensures var v := Relayed(s, id, k, body); var w := Write(Packet(body));
            v.peers.Keys == s.peers.Keys &&
            (forall i :: i in s.peers && i != id ==> v.peers[i] == Queued(s.peers[i], w)) &&
            v.peers[id] == Queued(Queued(Dequeue(s, id, k).peers[id], w), StartHeaderRead(s.peers[id]))
  {
    var t := Dequeue(s, id, k);
    assert t.peers.Keys == s.peers.Keys;
    assert WithWrite(t.peers, Packet(body)).Keys == s.peers.Keys;
  }

  lemma RelayedTrace(s: Server, id: int, k: nat, body: seq<Byte>)
    requires id in s.peers && k < |s.peers[id].pending| && s.peers[id].pending[k].BodyRead?
    ensures Relayed(s, id, k, body).trace ==
            s.trace + [Received(id, s.peers[id].pending[k].header + body)] + Sends(s.peers.Keys, Packet(body))
  {
    assert Dequeue(s, id, k).peers.Keys == s.peers.Keys;
  }

  lemma QueuedOk(p: Peer, op: Pending)
    requires PeerOk(p) && op.Write?
    ensures PeerOk(Queued(p, op)) && Rank(Queued(p, op)) == Rank(p)
  {
    QueuedFacts(p, op);
  }

  lemma RestartedOk(p: Peer, k: nat, w: Pending)
    requires PeerOk(p) && k < |p.pending| && p.pending[k].BodyRead? && w.Write?
    ensures var q := Queued(Queued(p.(pending := Without(p.pending, k)), w), StartHeaderRead(p));
            PeerOk(q) && Rank(q) == if p.closed then 0 else 2
  {
    var r := p.(pending := Without(p.pending, k));
    DequeueFacts(p, k);
    RankBounded(r.pending);
    QueuedFacts(r, w);
    QueuedFacts(Queued(r, w), StartHeaderRead(p));
  }

  lemma BroadcastPeer(s: Server, id: int, k: nat, body: seq<Byte>, i: int)
    requires Inv(s) && Enabled(s, Complete(id, k, Success(body))) && s.peers[id].pending[k].BodyRead?
    requires i in s.peers
    ensures var v := Relayed(s, id, k, body);
            v.peers.Keys == s.peers.Keys &&
            PeerOk(v.peers[i]) && v.peers[i].pending != [] && v.peers[i].failed == s.peers[i].failed &&
            Rank(v.peers[i]) == if i != id then Rank(s.peers[i]) else if s.peers[i].closed then 0 else 2
  {
    assert PeerOk(s.peers[i]);
    RelayedPeers(s, id, k, body);
    if i == id {
      RestartedOk(s.peers[id], k, Write(Packet(body)));
    } else {
      QueuedOk(s.peers[i], Write(Packet(body)));
    }
  }

  lemma BroadcastTrace(s: Server, id: int, k: nat, body: seq<Byte>, i: int)
    requires Inv(s) && Enabled(s, Complete(id, k, Success(body))) && s.peers[id].pending[k].BodyRead?
    ensures var v := Relayed(s, id, k, body);
            LifeOf(v.trace, i) == (if i == id then LifeOf(s.trace, id).After(Received(id, [])) else LifeOf(s.trace, i)) &&
            InOrder(v, i)
  {
    assert PeerOk(s.peers[id]);
    RelayIdentical(s.peers[id].pending[k].header, body);
    forall j
      ensures j in s.peers.Keys <==> LifeOf(s.trace, j).Listed()
    {
      assert Fate(s, j);
    }
    AppendedRelay(s.trace, id, s.peers.Keys, Packet(body), i);
    RelayedTrace(s, id, k, body);
    assert InOrder(s, i);
  }

  lemma FateCarried(s: Server, v: Server, id: int, i: int)
    requires Fate(s, i) && v.lastId == s.lastId && v.peers.Keys == s.peers.Keys && id in s.peers
    requires LifeOf(v.trace, i) == if i == id then LifeOf(s.trace, id).After(Received(id, [])) else LifeOf(s.trace, i)
    requires i in s.peers ==> v.peers[i].failed == s.peers[i].failed
    requires i in s.peers && i != id ==> Rank(v.peers[i]) == Rank(s.peers[i])
    requires Rank(s.peers[id]) > 0 && (i == id && s.peers[id].failed ==> Rank(v.peers[id]) == 0)
    ensures Fate(v, i)
  {}

  lemma BroadcastFate(s: Server, id: int, k: nat, body: seq<Byte>, i: int)
    requires Inv(s) && Enabled(s, Complete(id, k, Success(body))) && s.peers[id].pending[k].BodyRead?
    ensures var v := Relayed(s, id, k, body);
            Fate(v, i) && InOrder(v, i)
  {
    BroadcastTrace(s, id, k, body, i);
    BroadcastPeer(s, id, k, body, id);
    if i in s.peers {
      BroadcastPeer(s, id, k, body, i);
    }
    assert PeerOk(s.peers[id]);
    SumWithout(s.peers[id].pending, k, RankWeight);
    FateCarried(s, Relayed(s, id, k, body), id, i);
  }

  lemma BroadcastKeeps(s: Server, id: int, k: nat, body: seq<Byte>)
    requires Inv(s) && Enabled(s, Complete(id, k, Success(body))) && s.peers[id].pending[k].BodyRead?
    ensures Inv(Relayed(s, id, k, body))
  {
    var v := Relayed(s, id, k, body);
    forall i
      ensures Fate(v, i) && InOrder(v, i)
    {
      BroadcastFate(s, id, k, body, i);
    }
    BroadcastPeer(s, id, k, body, id);
    forall i | i in v.peers
      ensures PeerOk(v.peers[i]) && v.peers[i].pending != []
    {
      BroadcastPeer(s, id, k, body, i);
    }
  }

  lemma AcceptKeeps(s: Server)
    requires Inv(s) && s.status == Running
    ensures Inv(Accepting(s, true))
  {
    var v := Accepting(s, true);
    assert Reads(v.peers[v.lastId]) == 1 by {
      SumQueued([], HeaderRead(true), ReadWeight);
      assert [] + [HeaderRead(true)] == [HeaderRead(true)];
    }
    forall i
      ensures Fate(v, i) && InOrder(v, i)
    {
      assert Fate(s, i) && InOrder(s, i);
      Appended(s.trace, Accepted(v.lastId), i);
    }
  }

  lemma AbortKeeps(s: Server, id: int, k: nat)
    requires Inv(s) && s.status == Running && id in s.peers && k < |s.peers[id].pending|
    ensures Inv(Dequeue(s, id, k).(status := Aborted))
  {
    var v := Dequeue(s, id, k).(status := Aborted);
    DequeueFacts(s.peers[id], k);
    forall i
      ensures Fate(v, i) && InOrder(v, i)
    {
      assert Fate(s, i) && InOrder(s, i);
    }
  }

  lemma StopKeeps(s: Server)
    requires Inv(s) && s.status == Running
    ensures Inv(Accepting(s, false))
  {
    forall i
      ensures Fate(Accepting(s, false), i) && InOrder(Accepting(s, false), i)
    {
      assert Fate(s, i) && InOrder(s, i);
    }
  }

  lemma AcceptingKeeps(s: Server, ok: bool)
    requires Inv(s) && s.status == Running
    ensures Inv(Accepting(s, ok))
  {
    if ok {
      AcceptKeeps(s);
    } else {
      StopKeeps(s);
    }
  }

  lemma StepKeeps(s: Server, step: Step)
    requires Inv(s) && Enabled(s, step)
    ensures Inv(Next(s, step))
  {
    match step
    case Accept(ok) => AcceptingKeeps(s, ok);
    case Complete(id, k, outcome) =>
      match outcome
      case Failure => SettleKeeps(s, id, k, true);
      case Success(data) =>
        match s.peers[id].pending[k]
        case Write(_) => SettleKeeps(s, id, k, false);
        case BodyRead(_, _, _) => BroadcastKeeps(s, id, k, data);
        case HeaderRead(_) =>
          match Judge(data)
          case Reject => SettleKeeps(s, id, k, true);
          case LengthError => AbortKeeps(s, id, k);
          case Body(_) => BodyStartKeeps(s, id, k, data);
  }

  lemma InitialInv()
    ensures Inv(INITIAL)
  {
    assert forall id :: Fate(INITIAL, id) && InOrder(INITIAL, id);
  }

  lemma {:induction false} RunKeeps(s: Server, steps: seq<Step>)
    requires Inv(s) && Possible(s, steps)
    ensures Inv(Run(s, steps))
    decreases |steps|
  {
    if steps != [] {
      StepKeeps(s, steps[0]);
      RunKeeps(Next(s, steps[0]), steps[1..]);
    }
  }

  // ---------- whole-run theorems ----------

  /** In every run each socket is handed exactly the part of the global log from the accept of its
      peer to its erasure. */
  lemma BroadcastOrder(steps: seq<Step>, id: int)
    requires Possible(INITIAL, steps)
    ensures var t := Run(INITIAL, steps).trace;
            JoinedAt(t, id) <= LeftAt(t, id) <= |Frames(t)| &&
            SentTo(t, id) == if LifeOf(t, id).Unborn? then [] else Frames(t)[JoinedAt(t, id)..LeftAt(t, id)]
    ensures var t := Run(INITIAL, steps).trace;
            !LifeOf(t, id).Erased? ==> LeftAt(t, id) == |Frames(t)|
  {
    InitialInv();
    RunKeeps(INITIAL, steps);
    assert Fate(Run(INITIAL, steps), id) && InOrder(Run(INITIAL, steps), id);
    HeardIsSlice(Run(INITIAL, steps).trace, id);
  }

  /** The k-th frame of the log reached the socket of `id`. */
  ghost predicate Reached(t: seq<Event>, id: int, k: nat) {
    !LifeOf(t, id).Unborn? && JoinedAt(t, id) <= k < LeftAt(t, id)
  }

  lemma ReachedAt(steps: seq<Step>, id: int, k: nat)
    requires Possible(INITIAL, steps) && Reached(Run(INITIAL, steps).trace, id, k)
    ensures var t := Run(INITIAL, steps).trace; var j := k - JoinedAt(t, id);
            k < |Frames(t)| && j < |SentTo(t, id)| && SentTo(t, id)[j] == Frames(t)[k]
  {
    var t := Run(INITIAL, steps).trace;
    BroadcastOrder(steps, id);
    SliceAt(Frames(t), JoinedAt(t, id), LeftAt(t, id), k);
  }

  lemma SliceAt<T>(s: seq<T>, from: nat, to: nat, k: nat)
    requires from <= k < to <= |s|
    ensures s[from..to][k - from] == s[k]
  {}

  /** Any two peers were handed the frames of their common time on the list in the same order. */
  lemma CommonOrder(steps: seq<Step>, p: int, q: int, k: nat)
    requires Possible(INITIAL, steps)
    requires var t := Run(INITIAL, steps).trace; Reached(t, p, k) && Reached(t, q, k)
    ensures var t := Run(INITIAL, steps).trace; var i, j := k - JoinedAt(t, p), k - JoinedAt(t, q);
            i < |SentTo(t, p)| && j < |SentTo(t, q)| && SentTo(t, p)[i] == SentTo(t, q)[j]
  {
    ReachedAt(steps, p, k);
    ReachedAt(steps, q, k);
  }

  /** In every run each id lives at most once, reports one error at most, is erased only after its
      error, and contributes at most one frame after it. While it is listed its socket is shut down exactly
      when it has reported, and exactly one read is outstanding as long as it has not. */
  lemma PeerLife(steps: seq<Step>, id: int)
    requires Possible(INITIAL, steps)
    ensures var s := Run(INITIAL, steps); var life := LifeOf(s.trace, id);
            life != Illegal && (life.Failed? ==> life.late <= 1) &&
            (life.Listed() <==> id in s.peers) &&
            (life.Erased? <==> 1 <= id <= s.lastId && id !in s.peers)
    ensures var s := Run(INITIAL, steps);
            id in s.peers && s.status != Aborted ==>
              (s.peers[id].failed <==> LifeOf(s.trace, id).Failed?) &&
              s.peers[id].closed == s.peers[id].failed && s.peers[id].pending != [] &&
              Reads(s.peers[id]) <= 1 && (!s.peers[id].failed ==> Reads(s.peers[id]) == 1)
  {
    InitialInv();
    RunKeeps(INITIAL, steps);
    assert Fate(Run(INITIAL, steps), id);
  }
}
