/** What every run of the client keeps: the order of its status reports, one send report for every
    message, the passes over resolved endpoints, and which payloads become messages.
 */
module ClientRuns {
  import opened Bytes
  import opened MessageLayers
  import opened Framing
  import opened Collecting
  import opened ClientProtocol

  // ---------- status reports ----------

  datatype Letter = Asked | Reported(state: ConnectState)

  /** Accepted connect requests and the status reports that do not just say "busy". */
  function LettersOf(s: Signal): seq<Letter> {
    match s
    case ConnectRequested => [Asked]
    case StatusReport(t, reason) => if reason == Busy then [] else [Reported(t)]
    case _ => []
  }

  /** One connection from request to end: it was established, or not. */
  function Round(established: bool): seq<Letter> {
    if established then [Asked, Reported(CnstConnected), Reported(CnstDisconnected)]
    else [Asked, Reported(CnstDisconnected)]
  }

  /** How far the current round has come. */
  function Underway(s: State): seq<Letter> {
    match s
    case Waiting => []
    case Negotiating => [Asked]
    case Connected => [Asked, Reported(CnstConnected)]
  }

  ghost predicate Orderly(c: Client) {
    exists rounds :: Collect(c.trace, LettersOf) == Collect(rounds, Round) + Underway(c.state)
  }

  function NameOf(s: State): ConnectState {
    match s
    case Waiting => CnstDisconnected
    case Negotiating => CnstConnecting
    case Connected => CnstConnected
  }

  // ---------- messages ----------

  function PayloadsOf(s: Signal): seq<seq<Byte>> {
    if s.Payload? then [s.bytes] else []
  }

  function ReceivedOf(s: Signal): seq<Message> {
    if s.RcvMessage? then [s.received] else []
  }

  /** A payload that is marked as a user message and long enough for one, parsed. */
  function MessagesOf(b: seq<Byte>): seq<Message> {
    if |b| >= NEAR_HEADER && b[0] == NEAR_ID then [MessageOf(b).value] else []
  }

  ghost predicate Heeded(trace: seq<Signal>) {
    Collect(trace, ReceivedOf) == Collect(Collect(trace, PayloadsOf), MessagesOf)
  }

  // ---------- status reports: every reaction ----------

  /** A reaction either goes on in the round by as many letters as it emits, or completes it. */
  predicate Advances(s: State, letters: seq<Letter>, t: State) {
    || Underway(s) + letters == Underway(t)
    || (t == Waiting && Underway(s) + letters == Round(s == Connected))
  }

  lemma AdvancesOrderly(c: Client, letters: seq<Letter>, d: Client)
    requires Orderly(c) && Advances(c.state, letters, d.state)
    requires Collect(d.trace, LettersOf) == Collect(c.trace, LettersOf) + letters
    ensures Orderly(d)
  {
    var rounds :| Collect(c.trace, LettersOf) == Collect(rounds, Round) + Underway(c.state);
    Associative(Collect(rounds, Round), Underway(c.state), letters);
    if Underway(c.state) + letters == Underway(d.state) {
      assert Collect(d.trace, LettersOf) == Collect(rounds, Round) + Underway(d.state);
    } else {
      CollectSnoc(rounds, c.state == Connected, Round);
      assert Collect(d.trace, LettersOf) == Collect(rounds + [c.state == Connected], Round) + Underway(d.state);
    }
  }

  /** What one step adds: signals, of which every status report names the state the client is then
      in, and whose messages are the ones in their payloads. */
  ghost predicate Reports(c: Client, d: Client, signals: seq<Signal>) {
    && d.trace == c.trace + signals
    && Advances(c.state, Collect(signals, LettersOf), d.state)
    && (forall i :: 0 <= i < |signals| && signals[i].StatusReport? ==> signals[i].newstate == NameOf(d.state))
    && Heeded(signals)
  }

  ghost predicate Reporting(c: Client, d: Client) {
    exists signals :: Reports(c, d, signals)
  }

  lemma SaysNothing(c: Client, d: Client)
    requires d.trace == c.trace && d.state == c.state
    ensures Reporting(c, d)
  {
    assert c.trace + [] == c.trace && Underway(c.state) + [] == Underway(c.state);
    assert Reports(c, d, []);
  }

  predicate AboutMessages(s: Signal) { s.Payload? || s.RcvMessage? }

  lemma SaysOne(c: Client, d: Client, s: Signal)
    requires !AboutMessages(s) && (s.StatusReport? ==> s.newstate == NameOf(d.state))
    requires d.trace == c.trace + [s] && Advances(c.state, LettersOf(s), d.state)
    ensures Reporting(c, d)
  {
    CollectOne(s, LettersOf);
    CollectOne(s, PayloadsOf);
    CollectOne(s, ReceivedOf);
    assert Reports(c, d, [s]);
  }

  lemma SaysTwo(c: Client, d: Client, s: Signal, t: Signal)
    requires !AboutMessages(s) && !AboutMessages(t) && !s.StatusReport?
    requires t.StatusReport? ==> t.newstate == NameOf(d.state)
    requires d.trace == c.trace + [s, t] && Advances(c.state, LettersOf(s) + LettersOf(t), d.state)
    ensures Reporting(c, d)
  {
    CollectTwo(s, t, LettersOf);
    CollectTwo(s, t, PayloadsOf);
    CollectTwo(s, t, ReceivedOf);
    assert Reports(c, d, [s, t]);
  }

  lemma ConnectReports(c: Client, threadStarts: bool)
    ensures Reporting(c, React(c, EvtConnectRequest(threadStarts)))
  {
    var d := React(c, EvtConnectRequest(threadStarts));
    match c.state
    case Waiting =>
      if threadStarts {
        SaysOne(c, d, ConnectRequested);
      } else {
        Associative(c.trace, [ConnectRequested], [StatusReport(CnstDisconnected, ConnectFailed)]);
        SaysTwo(c, d, ConnectRequested, StatusReport(CnstDisconnected, ConnectFailed));
      }
    case Negotiating => SaysOne(c, d, StatusReport(CnstConnecting, Busy));
    case Connected => SaysOne(c, d, StatusReport(CnstConnected, Busy));
  }

  lemma SendingReports(c: Client, m: Message)
    ensures Reporting(c, React(c, EvtSendMsg(m)))
  {
    var d := React(c, EvtSendMsg(m));
    if c.state == Connected {
      SaysOne(c, d, Submitted(m));
    } else {
      SaysTwo(c, d, Submitted(m), SendReport(false, ServerNotConnected));
    }
  }

  lemma AcceptReports(c: Client, data: seq<Byte>)
    ensures Reporting(c, Accept(c, data))
  {
    var d := Accept(c, data);
    if data == [] {
      SaysNothing(c, d);
    } else {
      CollectOne(data, MessagesOf);
      var s := Payload(data);
      if data[0] == NEAR_ID && |data| >= NEAR_HEADER {
        var t := RcvMessage(MessageOf(data).value);
        CollectTwo(s, t, LettersOf);
        CollectTwo(s, t, PayloadsOf);
        CollectTwo(s, t, ReceivedOf);
        assert Reports(c, d, [s, t]);
      } else {
        CollectOne(s, LettersOf);
        CollectOne(s, PayloadsOf);
        CollectOne(s, ReceivedOf);
        assert Reports(c, d, [s]);
      }
    }
  }

  lemma ReactReports(c: Client, e: Event)
    ensures Reporting(c, React(c, e))
  {
    var d := React(c, e);
    match e
    case EvtConnectRequest(threadStarts) => ConnectReports(c, threadStarts);
    case EvtSendMsg(m) => SendingReports(c, m);
    case EvtRcvdMessage(data) => if c.state == Connected { AcceptReports(c, data); } else { SaysNothing(c, d); }
    case _ => if d == c { SaysNothing(c, d); } else { SaysOne(c, d, d.trace[|c.trace|]); }
  }

  lemma Same(c: Client, c': Client, d: Client, d': Client)
    requires c'.trace == c.trace && c'.state == c.state && d'.trace == d.trace && d'.state == d.state
    requires Reporting(c', d')
    ensures Reporting(c, d)
  {
    var signals :| Reports(c', d', signals);
    assert Reports(c, d, signals);
  }

  lemma WriteReports(c: Client, error: ErrorCode)
    ensures Reporting(c, WriteHandled(c, error))
  {
    var d := WriteHandled(c, error);
    if error == NoError {
      SaysOne(c, d, SendReport(true, SendOk));
    } else if c.state != Connected {
      SaysOne(c, d, SendReport(false, ConnectionError));
    } else {
      var s, t := SendReport(false, ConnectionError), StatusReport(CnstDisconnected, SocketClosed);
      Associative(c.trace, [s], [t]);
      SaysTwo(c, d, s, t);
    }
  }

  lemma ConnectingReports(c: Client, endpoints: seq<Endpoint>, at: nat, chain: nat, error: ErrorCode)
    requires chain < |c.chains| && at < |endpoints|
    ensures Reporting(c, Connecting(c, endpoints, at, chain, error))
  {
    var l := c.chains[chain].(outcomes := c.chains[chain].outcomes + [error]);
    var d := Connecting(c, endpoints, at, chain, error);
    if error == NoError {
      var c' := Queue(Log(c, chain, l.(report := Succeeded)), HeaderRead);
      ReactReports(c', EvtConnectReport(true));
      Same(c, c', d, d);
    } else if at + 1 < |endpoints| || error == OperationAborted {
      SaysNothing(c, d);
    } else {
      var c' := Log(c, chain, l.(report := Exhausted));
      ReactReports(c', EvtConnectReport(false));
      Same(c, c', d, d);
    }
  }

  lemma HeaderReports(c: Client, error: ErrorCode, h: seq<Byte>)
    requires error == NoError ==> |h| == SEGMENTATION_HEADER
    ensures Reporting(c, HeaderHandled(c, error, h))
  {
    var d := HeaderHandled(c, error, h);
    ReactReports(c, EvtDisconnected);
    if d != React(c, EvtDisconnected) {
      SaysNothing(c, d);
    }
  }

  lemma BodyReports(c: Client, error: ErrorCode, body: seq<Byte>)
    ensures Reporting(c, BodyHandled(c, error, body))
  {
    if error != NoError {
      ReactReports(c, EvtDisconnected);
    } else {
      var d := React(c, EvtRcvdMessage(body));
      ReactReports(c, EvtRcvdMessage(body));
      Same(c, c, BodyHandled(c, error, body), d);
    }
  }

  lemma ResolvingReports(c: Client, error: ErrorCode, endpoints: seq<Endpoint>)
    ensures Reporting(c, Resolving(c, error, endpoints))
  {
    if endpoints != [] || error == OperationAborted {
      SaysNothing(c, Resolving(c, error, endpoints));
    } else {
      ReactReports(c, EvtConnectReport(false));
    }
  }

  /** Whatever happens in whatever state: the round of reports goes on properly, a status report names
      the state entered, and a payload becomes a message exactly when it should. */
  lemma StepReports(c: Client, step: Step)
    requires Enabled(c, step)
    ensures Reporting(c, Next(c, step))
  {
    match step
    case UserConnect(threadStarts) => ReactReports(c, EvtConnectRequest(threadStarts));
    case UserDisconnect => ReactReports(c, EvtDisconnectRequest);
    case UserSend(m) => ReactReports(c, EvtSendMsg(m));
    case Complete(k, how) =>
      var c', d := c.(pending := Without(c.pending, k)), Next(c, step);
      match c.pending[k] {
        case Resolve => ResolvingReports(c', how.error, how.endpoints);
        case Connect(es, at, chain) => ConnectingReports(c', es, at, chain, how.error);
        case HeaderRead => HeaderReports(c', how.error, how.data);
        case BodyRead(_) => BodyReports(c', how.error, how.data);
        case Write(_) => WriteReports(c', how.error);
      }
      Same(c, c', d, d);
  }

  // ---------- one send report for every message ----------

  function SubmissionsOf(s: Signal): seq<Message> {
    if s.Submitted? then [s.message] else []
  }

  function SendReportsOf(s: Signal): seq<bool> {
    if s.SendReport? then [s.sent] else []
  }

  function WritesOf(op: Pending): seq<seq<Byte>> {
    if op.Write? then [op.frame] else []
  }

  /** Messages handed in, less the send reports given and the writes that will give one. */
  function Owed(c: Client): int {
    |Collect(c.trace, SubmissionsOf)| - |Collect(c.trace, SendReportsOf)| - |Collect(c.pending, WritesOf)|
  }

  function Weight(s: Signal): int {
    if s.Submitted? then 1 else if s.SendReport? then -1 else 0
  }

  lemma OwedSignal(c: Client, s: Signal)
    ensures Owed(Signals(c, [s])) == Owed(c) + Weight(s)
  {
    CollectSnoc(c.trace, s, SubmissionsOf);
    CollectSnoc(c.trace, s, SendReportsOf);
  }

  lemma OwedTwo(c: Client, s: Signal, t: Signal)
    ensures Owed(Signals(c, [s, t])) == Owed(c) + Weight(s) + Weight(t)
  {
    OwedSignal(c, s);
    OwedSignal(Signals(c, [s]), t);
    Associative(c.trace, [s], [t]);
    assert [s] + [t] == [s, t];
  }

  lemma OwedQueue(c: Client, op: Pending)
    ensures Owed(Queue(c, op)) == Owed(c) - if op.Write? then 1 else 0
  {
    CollectSnoc(c.pending, op, WritesOf);
  }

  lemma OwedWithout(c: Client, k: nat)
    requires k < |c.pending|
    ensures Owed(c.(pending := Without(c.pending, k))) == Owed(c) + if c.pending[k].Write? then 1 else 0
  {
    var front, op, back := c.pending[..k], c.pending[k], c.pending[k + 1..];
    assert c.pending == front + [op] + back;
    CollectAppend(front + [op], back, WritesOf);
    CollectSnoc(front, op, WritesOf);
    CollectAppend(front, back, WritesOf);
  }

  lemma ReactOwes(c: Client, e: Event)
    ensures Owed(React(c, e)) == Owed(c)
  {
    match e
    case EvtConnectRequest(threadStarts) =>
      if c.state == Waiting {
        OwedQueue(c, Resolve);
        OwedSignal(Queue(c, Resolve), ConnectRequested);
        OwedSignal(Signals(Queue(c, Resolve), [ConnectRequested]), StatusReport(CnstDisconnected, ConnectFailed));
      } else {
        OwedSignal(c, StatusReport(NameOf(c.state), Busy));
      }
    case EvtSendMsg(m) =>
      if c.state == Connected {
        OwedSignal(c, Submitted(m));
        OwedQueue(Signals(c, [Submitted(m)]), Write(Packet(MessageWire(m))));
      } else {
        OwedTwo(c, Submitted(m), SendReport(false, ServerNotConnected));
      }
    case EvtRcvdMessage(data) =>
      OwedSignal(c, Payload(data));
      if MessageOf(data).Ok? {
        OwedTwo(c, Payload(data), RcvMessage(MessageOf(data).value));
      }
    case _ =>
      OwedSignal(c, StatusReport(CnstConnected, UserRequested));
      OwedSignal(c, StatusReport(CnstDisconnected, UserRequested));
      OwedSignal(c, StatusReport(CnstDisconnected, ConnectFailed));
      OwedSignal(c, StatusReport(CnstDisconnected, SocketClosed));
  }

  lemma ConnectingOwes(c: Client, endpoints: seq<Endpoint>, at: nat, chain: nat, error: ErrorCode)
    requires chain < |c.chains| && at < |endpoints|
    ensures Owed(Connecting(c, endpoints, at, chain, error)) == Owed(c)
  {
    var l := c.chains[chain].(outcomes := c.chains[chain].outcomes + [error]);
    if error == NoError {
      var c' := Log(c, chain, l.(report := Succeeded));
      OwedQueue(c', HeaderRead);
      ReactOwes(Queue(c', HeaderRead), EvtConnectReport(true));
    } else if at + 1 < |endpoints| {
      OwedQueue(Log(c, chain, l.(attempts := l.attempts + [endpoints[at + 1]])), Connect(endpoints, at + 1, chain));
    } else {
      ReactOwes(Log(c, chain, l.(report := Exhausted)), EvtConnectReport(false));
    }
  }

  lemma ReadingOwes(c: Client, data: seq<Byte>)
    ensures forall n :: Owed(Queue(c, BodyRead(n))) == Owed(c)
    ensures Owed(BodyHandled(c, NoError, data)) == Owed(c)
  {
    forall n ensures Owed(Queue(c, BodyRead(n))) == Owed(c) {
      OwedQueue(c, BodyRead(n));
    }
    ReactOwes(c, EvtRcvdMessage(data));
    OwedQueue(React(c, EvtRcvdMessage(data)), HeaderRead);
  }

  lemma CompletingOwes(c: Client, k: nat, how: Completion)
    requires k < |c.pending| && CanEnd(c.pending[k], how) && Dereferenceable(c, c.pending[k])
    ensures Owed(Completing(c, k, how)) == Owed(c)
  {
    OwedWithout(c, k);
    var d := c.(pending := Without(c.pending, k));
    match c.pending[k]
    case Resolve =>
      ReactOwes(d, EvtConnectReport(false));
      if how.endpoints != [] {
        OwedQueue(d, Connect(how.endpoints, 0, |d.chains|));
      }
    case Connect(es, at, chain) => ConnectingOwes(d, es, at, chain, how.error);
    case HeaderRead =>
      ReactOwes(d, EvtDisconnected);
      ReadingOwes(d, how.data);
    case BodyRead(_) =>
      ReactOwes(d, EvtDisconnected);
      ReadingOwes(d, how.data);
    case Write(_) =>
      OwedSignal(d, SendReport(true, SendOk));
      OwedSignal(d, SendReport(false, ConnectionError));
      ReactOwes(Signals(d, [SendReport(false, ConnectionError)]), EvtDisconnected);
  }

  lemma StepOwes(c: Client, step: Step)
    requires Enabled(c, step)
    ensures Owed(Next(c, step)) == Owed(c)
  {
    match step
    case UserConnect(threadStarts) => ReactOwes(c, EvtConnectRequest(threadStarts));
    case UserDisconnect => ReactOwes(c, EvtDisconnectRequest);
    case UserSend(m) => ReactOwes(c, EvtSendMsg(m));
    case Complete(k, how) => CompletingOwes(c, k, how);
  }

  // ---------- passes over the endpoints ----------

  predicate Over(l: Chain) { |l.outcomes| == |l.attempts| }

  /** Endpoints are tried in order, each once, the next one after an error; what is reported follows
      from how the last attempt ended. */
  ghost predicate ChainOk(l: Chain) {
    var tried, ended := |l.attempts|, |l.outcomes|;
    && 1 <= tried <= |l.endpoints| && l.attempts == l.endpoints[..tried]
    && tried - 1 <= ended <= tried
    && (forall i :: 0 <= i < tried - 1 ==> l.outcomes[i] != NoError)
    && (Over(l) ==> l.outcomes[ended - 1] == NoError || tried == |l.endpoints|)
    && (l.report == Succeeded <==> Over(l) && l.outcomes[ended - 1] == NoError)
    && (l.report == Exhausted <==> Over(l) && l.outcomes[ended - 1] == OtherError)
  }

  /** The handler waits for the chain's last attempt. */
  predicate WaitsFor(op: Pending, l: Chain) {
    op.Connect? && l.endpoints == op.endpoints && !Over(l) && |l.outcomes| == op.at && |l.attempts| == op.at + 1
  }

  /** Connect handlers and unfinished chains correspond one to one. */
  ghost predicate Tracked(pending: seq<Pending>, chains: seq<Chain>) {
    && (forall n :: 0 <= n < |chains| ==> ChainOk(chains[n]))
    && (forall k :: 0 <= k < |pending| && pending[k].Connect? ==>
          pending[k].chain < |chains| && WaitsFor(pending[k], chains[pending[k].chain]))
    && (forall j, k :: 0 <= j < k < |pending| && pending[j].Connect? && pending[k].Connect? ==>
          pending[j].chain != pending[k].chain)
    && (forall n :: 0 <= n < |chains| && !Over(chains[n]) ==> AwaitedIn(pending, n))
  }

  ghost predicate AwaitedIn(pending: seq<Pending>, n: nat) {
    exists k :: 0 <= k < |pending| && pending[k].Connect? && pending[k].chain == n
  }

  lemma AwaitedLonger(pending: seq<Pending>, op: Pending, n: nat)
    requires AwaitedIn(pending, n) || (op.Connect? && op.chain == n)
    ensures AwaitedIn(pending + [op], n)
  {
    if AwaitedIn(pending, n) {
      var k :| 0 <= k < |pending| && pending[k].Connect? && pending[k].chain == n;
      assert (pending + [op])[k] == pending[k];
    } else {
      assert (pending + [op])[|pending|] == op;
    }
  }

  lemma AwaitedWithout(pending: seq<Pending>, k: nat, n: nat)
    requires k < |pending| && AwaitedIn(pending, n)
    requires pending[k].Connect? ==> pending[k].chain != n
    ensures AwaitedIn(Without(pending, k), n)
  {
    var j :| 0 <= j < |pending| && pending[j].Connect? && pending[j].chain == n;
    assert Without(pending, k)[if j < k then j else j - 1] == pending[j];
  }

  lemma TrackedQueue(pending: seq<Pending>, chains: seq<Chain>, op: Pending)
    requires Tracked(pending, chains) && !op.Connect?
    ensures Tracked(pending + [op], chains)
  {
    forall n | 0 <= n < |chains| && !Over(chains[n]) ensures AwaitedIn(pending + [op], n) {
      AwaitedLonger(pending, op, n);
    }
  }

  lemma TrackedWithout(pending: seq<Pending>, chains: seq<Chain>, k: nat)
    requires k < |pending| && Tracked(pending, chains) && !pending[k].Connect?
    ensures Tracked(Without(pending, k), chains)
  {
    forall n | 0 <= n < |chains| && !Over(chains[n]) ensures AwaitedIn(Without(pending, k), n) {
      AwaitedWithout(pending, k, n);
    }
  }

  lemma TrackedStart(pending: seq<Pending>, chains: seq<Chain>, endpoints: seq<Endpoint>)
    requires Tracked(pending, chains) && endpoints != []
    ensures Tracked(pending + [Connect(endpoints, 0, |chains|)], chains + [Chain(endpoints, [endpoints[0]], [], Open)])
  {
    var op, l := Connect(endpoints, 0, |chains|), Chain(endpoints, [endpoints[0]], [], Open);
    assert ChainOk(l) && WaitsFor(op, l);
    forall n | 0 <= n < |chains + [l]| && !Over((chains + [l])[n]) ensures AwaitedIn(pending + [op], n) {
      AwaitedLonger(pending, op, n);
    }
  }

  lemma TrackedEnd(pending: seq<Pending>, chains: seq<Chain>, k: nat, l: Chain)
    requires k < |pending| && Tracked(pending, chains) && pending[k].Connect?
    requires ChainOk(l) && Over(l)
    ensures Tracked(Without(pending, k), chains[pending[k].chain := l])
  {
    var later := chains[pending[k].chain := l];
    forall n | 0 <= n < |later| && !Over(later[n]) ensures AwaitedIn(Without(pending, k), n) {
      AwaitedWithout(pending, k, n);
    }
  }

  lemma TrackedRetry(pending: seq<Pending>, chains: seq<Chain>, k: nat, l: Chain, op: Pending)
    requires k < |pending| && Tracked(pending, chains) && pending[k].Connect?
    requires ChainOk(l) && op.Connect? && op.chain == pending[k].chain && WaitsFor(op, l)
    ensures Tracked(Without(pending, k) + [op], chains[pending[k].chain := l])
  {
    var later := chains[pending[k].chain := l];
    forall n | 0 <= n < |later| && !Over(later[n]) ensures AwaitedIn(Without(pending, k) + [op], n) {
      if n != op.chain {
        AwaitedWithout(pending, k, n);
      }
      AwaitedLonger(Without(pending, k), op, n);
    }
  }

  lemma ReactTracks(c: Client, e: Event)
    requires Tracked(c.pending, c.chains)
    ensures Tracked(React(c, e).pending, c.chains) && React(c, e).chains == c.chains
  {
    var d := React(c, e);
    if d.pending != c.pending {
      var op := d.pending[|c.pending|];
      assert d.pending == c.pending + [op];
      TrackedQueue(c.pending, c.chains, op);
    }
  }

  lemma ConnectingTracks(c: Client, k: nat, error: ErrorCode)
    requires k < |c.pending| && c.pending[k].Connect? && Tracked(c.pending, c.chains)
    ensures var op := c.pending[k];
            op.chain < |c.chains| && op.at < |op.endpoints| &&
            var d := Connecting(c.(pending := Without(c.pending, k)), op.endpoints, op.at, op.chain, error);
            Tracked(d.pending, d.chains)
  {
    var op := c.pending[k];
    var c' := c.(pending := Without(c.pending, k));
    var l := c.chains[op.chain];
    var m := l.(outcomes := l.outcomes + [error]);
    if error == NoError {
      TrackedEnd(c.pending, c.chains, k, m.(report := Succeeded));
      var c'' := Log(c', op.chain, m.(report := Succeeded));
      TrackedQueue(c''.pending, c''.chains, HeaderRead);
      ReactTracks(Queue(c'', HeaderRead), EvtConnectReport(true));
    } else if op.at + 1 < |op.endpoints| {
      var next := op.endpoints[op.at + 1];
      assert l.attempts + [next] == l.endpoints[..op.at + 2];
      TrackedRetry(c.pending, c.chains, k, m.(attempts := l.attempts + [next]), Connect(op.endpoints, op.at + 1, op.chain));
    } else if error == OperationAborted {
      TrackedEnd(c.pending, c.chains, k, m);
    } else {
      TrackedEnd(c.pending, c.chains, k, m.(report := Exhausted));
      ReactTracks(Log(c', op.chain, m.(report := Exhausted)), EvtConnectReport(false));
    }
  }

  lemma OthersTrack(c: Client, k: nat, how: Completion)
    requires k < |c.pending| && !c.pending[k].Connect? && Tracked(c.pending, c.chains) && CanEnd(c.pending[k], how)
    ensures var d := Completing(c, k, how); Tracked(d.pending, d.chains)
  {
    TrackedWithout(c.pending, c.chains, k);
    var d := c.(pending := Without(c.pending, k));
    match c.pending[k]
    case Resolve =>
      if how.endpoints != [] {
        TrackedStart(d.pending, d.chains, how.endpoints);
      } else {
        ReactTracks(d, EvtConnectReport(false));
      }
    case HeaderRead =>
      ReactTracks(d, EvtDisconnected);
      if how.error == NoError && Judge(how.data).Body? {
        TrackedQueue(d.pending, d.chains, BodyRead(Judge(how.data).length));
      }
    case BodyRead(_) =>
      ReactTracks(d, EvtDisconnected);
      ReactTracks(d, EvtRcvdMessage(how.data));
      TrackedQueue(React(d, EvtRcvdMessage(how.data)).pending, d.chains, HeaderRead);
    case Write(_) =>
      ReactTracks(Signals(d, [SendReport(false, ConnectionError)]), EvtDisconnected);
  }

  lemma StepTracks(c: Client, step: Step)
    requires Enabled(c, step) && Tracked(c.pending, c.chains)
    ensures Tracked(Next(c, step).pending, Next(c, step).chains)
  {
    match step
    case UserConnect(threadStarts) => ReactTracks(c, EvtConnectRequest(threadStarts));
    case UserDisconnect => ReactTracks(c, EvtDisconnectRequest);
    case UserSend(m) => ReactTracks(c, EvtSendMsg(m));
    case Complete(k, how) =>
      if c.pending[k].Connect? { ConnectingTracks(c, k, how.error); } else { OthersTrack(c, k, how); }
  }

  // ---------- runs ----------

  ghost predicate Inv(c: Client) {
    Orderly(c) && Owed(c) == 0 && Tracked(c.pending, c.chains) && Heeded(c.trace)
  }

  lemma InitialInv()
    ensures Inv(INITIAL)
  {
    assert Collect(INITIAL.trace, LettersOf) == Collect([], Round) + Underway(Waiting);
  }

  lemma StepKeeps(c: Client, step: Step)
    requires Inv(c) && Enabled(c, step)
    ensures Inv(Next(c, step))
  {
    StepReports(c, step);
    StepOwes(c, step);
    StepTracks(c, step);
    var d := Next(c, step);
    var signals :| Reports(c, d, signals);
    CollectAppend(c.trace, signals, LettersOf);
    AdvancesOrderly(c, Collect(signals, LettersOf), d);
    CollectAppend(c.trace, signals, ReceivedOf);
    CollectAppend(c.trace, signals, PayloadsOf);
    CollectAppend(Collect(c.trace, PayloadsOf), Collect(signals, PayloadsOf), MessagesOf);
  }

  lemma {:induction false} RunKeeps(c: Client, steps: seq<Step>)
    requires Inv(c) && Possible(c, steps)
    ensures Inv(Run(c, steps))
    decreases |steps|
  {
    if steps != [] {
      StepKeeps(c, steps[0]);
      RunKeeps(Next(c, steps[0]), steps[1..]);
    }
  }

  lemma Reachable(steps: seq<Step>)
    requires Possible(INITIAL, steps)
    ensures Inv(Run(INITIAL, steps))
  {
    InitialInv();
    RunKeeps(INITIAL, steps);
  }

  function AskedOf(l: Letter): seq<Letter> {
    if l.Asked? then [l] else []
  }

  function EndedOf(l: Letter): seq<Letter> {
    if l == Reported(CnstDisconnected) then [l] else []
  }

  lemma {:induction false} RoundsBalance(rounds: seq<bool>)
    ensures |Collect(Collect(rounds, Round), AskedOf)| == |rounds| == |Collect(Collect(rounds, Round), EndedOf)|
  {
    if rounds != [] {
      var r, more := Round(rounds[0]), Collect(rounds[1..], Round);
      RoundsBalance(rounds[1..]);
      CollectAppend(r, more, AskedOf);
      CollectAppend(r, more, EndedOf);
      RoundBalances(rounds[0]);
    }
  }

  lemma RoundBalances(established: bool)
    ensures |Collect(Round(established), AskedOf)| == 1 == |Collect(Round(established), EndedOf)|
  {
    var a, u, d := Asked, Reported(CnstConnected), Reported(CnstDisconnected);
    CollectTwo(a, d, AskedOf);
    CollectTwo(a, d, EndedOf);
    CollectTwo(a, u, AskedOf);
    CollectTwo(a, u, EndedOf);
    assert [a, u] + [d] == [a, u, d];
    CollectSnoc([a, u], d, AskedOf);
    CollectSnoc([a, u], d, EndedOf);
  }

  lemma UnderwayBalance(s: State)
    ensures |Collect(Underway(s), AskedOf)| == if s == Waiting then 0 else 1
    ensures Collect(Underway(s), EndedOf) == []
  {
    CollectOne(Asked, AskedOf);
    CollectOne(Asked, EndedOf);
    CollectTwo(Asked, Reported(CnstConnected), AskedOf);
    CollectTwo(Asked, Reported(CnstConnected), EndedOf);
  }

  /** In every run the accepted requests and the reports that are not "busy" form complete rounds, of which
      only the last may be underway; so every accepted request but a current one has been answered by
      exactly one report of a disconnection. */
  lemma ReportOrder(steps: seq<Step>)
    requires Possible(INITIAL, steps)
    ensures var c := Run(INITIAL, steps); var letters := Collect(c.trace, LettersOf);
            (exists rounds :: letters == Collect(rounds, Round) + Underway(c.state)) &&
            |Collect(letters, AskedOf)| == |Collect(letters, EndedOf)| + if c.state == Waiting then 0 else 1
  {
    Reachable(steps);
    var c := Run(INITIAL, steps);
    var rounds :| Collect(c.trace, LettersOf) == Collect(rounds, Round) + Underway(c.state);
    RoundsBalance(rounds);
    UnderwayBalance(c.state);
    CollectAppend(Collect(rounds, Round), Underway(c.state), AskedOf);
    CollectAppend(Collect(rounds, Round), Underway(c.state), EndedOf);
  }

  /** In every run each message handed in has had its send report, or a write is still to give it one. */
  lemma SendConservation(steps: seq<Step>)
    requires Possible(INITIAL, steps)
    ensures var c := Run(INITIAL, steps);
            |Collect(c.trace, SubmissionsOf)| == |Collect(c.trace, SendReportsOf)| + |Collect(c.pending, WritesOf)|
  {
    Reachable(steps);
  }

  /** The send reports given so far. */
  function Told(c: Client): seq<bool> {
    Collect(c.trace, SendReportsOf)
  }

  lemma TellsSignal(c: Client, s: Signal)
    ensures Told(Signals(c, [s])) == Told(c) + SendReportsOf(s)
  {
    CollectSnoc(c.trace, s, SendReportsOf);
  }

  lemma ReactTells(c: Client, e: Event)
    ensures Told(React(c, e)) == Told(c) + if e.EvtSendMsg? && c.state != Connected then [false] else []
  {
    match e
    case EvtConnectRequest(threadStarts) =>
      TellsSignal(c, ConnectRequested);
      TellsSignal(Signals(c, [ConnectRequested]), StatusReport(CnstDisconnected, ConnectFailed));
      TellsSignal(c, StatusReport(NameOf(c.state), Busy));
    case EvtSendMsg(m) =>
      TellsSignal(c, Submitted(m));
      TellsSignal(Signals(c, [Submitted(m)]), SendReport(false, ServerNotConnected));
      assert [Submitted(m)] + [SendReport(false, ServerNotConnected)] == [Submitted(m), SendReport(false, ServerNotConnected)];
      Associative(c.trace, [Submitted(m)], [SendReport(false, ServerNotConnected)]);
    case EvtRcvdMessage(data) =>
      TellsSignal(c, Payload(data));
      if MessageOf(data).Ok? {
        var t := RcvMessage(MessageOf(data).value);
        TellsSignal(Signals(c, [Payload(data)]), t);
        assert [Payload(data)] + [t] == [Payload(data), t];
        Associative(c.trace, [Payload(data)], [t]);
      }
    case _ =>
      TellsSignal(c, StatusReport(CnstConnected, UserRequested));
      TellsSignal(c, StatusReport(CnstDisconnected, UserRequested));
      TellsSignal(c, StatusReport(CnstDisconnected, ConnectFailed));
      TellsSignal(c, StatusReport(CnstDisconnected, SocketClosed));
  }

  lemma CompletingTells(c: Client, k: nat, how: Completion)
    requires k < |c.pending| && CanEnd(c.pending[k], how) && Dereferenceable(c, c.pending[k])
    ensures Told(Completing(c, k, how)) == Told(c) + if c.pending[k].Write? then [how.error == NoError] else []
  {
    var d := c.(pending := Without(c.pending, k));
    match c.pending[k]
    case Resolve => ReactTells(d, EvtConnectReport(false));
    case Connect(es, at, n) =>
      var l := d.chains[n].(outcomes := d.chains[n].outcomes + [how.error]);
      ReactTells(Queue(Log(d, n, l.(report := Succeeded)), HeaderRead), EvtConnectReport(true));
      ReactTells(Log(d, n, l.(report := Exhausted)), EvtConnectReport(false));
    case HeaderRead => ReactTells(d, EvtDisconnected);
    case BodyRead(_) =>
      ReactTells(d, EvtDisconnected);
      ReactTells(d, EvtRcvdMessage(how.data));
    case Write(_) =>
      var report := if how.error == NoError then SendReport(true, SendOk) else SendReport(false, ConnectionError);
      TellsSignal(d, report);
      ReactTells(Signals(d, [report]), EvtDisconnected);
  }

  /** A send report says whether the message has gone out: its write has succeeded. Without a connection
      the answer is no, and comes at once. */
  lemma SendReportsTell(c: Client, step: Step)
    requires Enabled(c, step)
    ensures Told(Next(c, step)) == Told(c) +
            match step
            case UserSend(_) => if c.state == Connected then [] else [false]
            case Complete(k, how) => if c.pending[k].Write? then [how.error == NoError] else []
            case _ => []
  {
    match step
    case UserConnect(threadStarts) => ReactTells(c, EvtConnectRequest(threadStarts));
    case UserDisconnect => ReactTells(c, EvtDisconnectRequest);
    case UserSend(m) => ReactTells(c, EvtSendMsg(m));
    case Complete(k, how) => CompletingTells(c, k, how);
  }

  /** In every run every pass over resolved endpoints is proper, goes on as long as it is not over, and
      never dereferences an iterator at the end. */
  lemma EndpointRetry(steps: seq<Step>)
    requires Possible(INITIAL, steps)
    ensures var c := Run(INITIAL, steps);
            (forall n :: 0 <= n < |c.chains| ==> ChainOk(c.chains[n]) && (AwaitedIn(c.pending, n) <==> !Over(c.chains[n]))) &&
            (forall k :: 0 <= k < |c.pending| ==> Dereferenceable(c, c.pending[k]))
  {
    Reachable(steps);
  }

  /** What a connect handler does follows from how its pass stands after it: it reports the outcome of a
      finished pass, to a machine that is still negotiating, and reads from the socket it has connected. */
  lemma ConnectOutcome(c: Client, k: nat, error: ErrorCode)
    requires Enabled(c, Complete(k, Ended(error, []))) && c.pending[k].Connect? && Tracked(c.pending, c.chains)
    ensures var op, d := c.pending[k], Next(c, Complete(k, Ended(error, []))); var l := d.chains[op.chain];
            l.outcomes == c.chains[op.chain].outcomes + [error] &&
            d.state == (if c.state != Negotiating || l.report == Open then c.state
                        else if l.report == Succeeded then Connected else Waiting) &&
            d.pending == Without(c.pending, k) + (if l.report == Succeeded then [HeaderRead]
                                                  else if Over(l) then []
                                                  else [Connect(l.endpoints, |l.outcomes|, op.chain)])
  {
    ConnectingTracks(c, k, error);
  }

  /** The endpoints of a pass whose attempt has not ended. */
  function LeftOf(l: Chain): seq<Endpoint> {
    if |l.outcomes| <= |l.endpoints| then l.endpoints[|l.outcomes|..] else []
  }

  function Left(c: Client): nat {
    |Collect(c.chains, LeftOf)|
  }

  lemma LeftUpdate(chains: seq<Chain>, n: nat, l: Chain)
    requires n < |chains|
    ensures |Collect(chains[n := l], LeftOf)| == |Collect(chains, LeftOf)| - |LeftOf(chains[n])| + |LeftOf(l)|
  {
    assert chains == chains[..n] + [chains[n]] + chains[n + 1..];
    assert chains[n := l] == chains[..n] + [l] + chains[n + 1..];
    CollectSnoc(chains[..n], chains[n], LeftOf);
    CollectSnoc(chains[..n], l, LeftOf);
    CollectAppend(chains[..n] + [chains[n]], chains[n + 1..], LeftOf);
    CollectAppend(chains[..n] + [l], chains[n + 1..], LeftOf);
  }

  /** How many endpoints the resolver gave in a run. */
  function Offered(c: Client, steps: seq<Step>): nat
    requires Possible(c, steps)
    decreases |steps|
  {
    if steps == [] then 0
    else OfferedBy(c, steps[0]) + Offered(Next(c, steps[0]), steps[1..])
  }

  function OfferedBy(c: Client, step: Step): nat
    requires Enabled(c, step)
  {
    if step.Complete? && c.pending[step.k].Resolve? then |step.how.endpoints| else 0
  }

  /** How many connection attempts ended in a run. */
  function Attempted(c: Client, steps: seq<Step>): nat
    requires Possible(c, steps)
    decreases |steps|
  {
    if steps == [] then 0
    else AttemptedBy(c, steps[0]) + Attempted(Next(c, steps[0]), steps[1..])
  }

  function AttemptedBy(c: Client, step: Step): nat
    requires Enabled(c, step)
  {
    if step.Complete? && c.pending[step.k].Connect? then 1 else 0
  }

  lemma ConnectingLeaves(c: Client, k: nat, error: ErrorCode)
    requires k < |c.pending| && c.pending[k].Connect? && Tracked(c.pending, c.chains)
    ensures var op := c.pending[k];
            op.chain < |c.chains| && op.at < |op.endpoints| &&
            Left(Connecting(c.(pending := Without(c.pending, k)), op.endpoints, op.at, op.chain, error)) == Left(c) - 1
  {
    var op := c.pending[k];
    var l := c.chains[op.chain].(outcomes := c.chains[op.chain].outcomes + [error]);
    var d := Connecting(c.(pending := Without(c.pending, k)), op.endpoints, op.at, op.chain, error);
    assert d.chains == c.chains[op.chain := d.chains[op.chain]];
    assert LeftOf(d.chains[op.chain]) == LeftOf(l);
    LeftUpdate(c.chains, op.chain, d.chains[op.chain]);
  }

  lemma StepLeaves(c: Client, step: Step)
    requires Enabled(c, step) && Tracked(c.pending, c.chains)
    ensures Left(Next(c, step)) + AttemptedBy(c, step) == Left(c) + OfferedBy(c, step)
  {
    if step.Complete? && c.pending[step.k].Connect? {
      ConnectingLeaves(c, step.k, step.how.error);
    } else if step.Complete? && c.pending[step.k].Resolve? && step.how.endpoints != [] {
      CollectSnoc(c.chains, Chain(step.how.endpoints, [step.how.endpoints[0]], [], Open), LeftOf);
    } else {
      assert Next(c, step).chains == c.chains;
    }
  }

  /** Connecting ends: a run has exactly as many attempts as the resolver gave endpoints, less those of a
      pass that has succeeded early or is still going on. */
  lemma {:induction false} AttemptsBounded(c: Client, steps: seq<Step>)
    requires Inv(c) && Possible(c, steps)
    ensures Attempted(c, steps) + Left(Run(c, steps)) == Left(c) + Offered(c, steps)
    decreases |steps|
  {
    if steps != [] {
      StepLeaves(c, steps[0]);
      StepKeeps(c, steps[0]);
      AttemptsBounded(Next(c, steps[0]), steps[1..]);
    }
  }

  /** In every run the application gets exactly the messages in the payloads, in their order. */
  lemma ResilientDelivery(steps: seq<Step>)
    requires Possible(INITIAL, steps)
    ensures var c := Run(INITIAL, steps);
            Collect(c.trace, ReceivedOf) == Collect(Collect(c.trace, PayloadsOf), MessagesOf)
  {
    Reachable(steps);
  }

  /** A payload that is not empty never breaks the read chain: whatever it holds, and in every state, the
      handler goes on to read the next header. */
  lemma ReadChain(c: Client, k: nat, body: seq<Byte>)
    requires Enabled(c, Complete(k, Ended(NoError, body))) && c.pending[k].BodyRead?
    ensures var d := Next(c, Complete(k, Ended(NoError, body)));
            if c.state == Connected && body == [] then d.halted && d.pending == Without(c.pending, k)
            else !d.halted && d.pending == Without(c.pending, k) + [HeaderRead] && d.state == c.state
    ensures var d := Next(c, Complete(k, Ended(NoError, body)));
            Collect(d.trace, PayloadsOf) == Collect(c.trace, PayloadsOf) + if c.state == Connected && body != [] then [body] else []
  {
    CollectSnoc(c.trace, Payload(body), PayloadsOf);
    if MessageOf(body).Ok? {
      var t := RcvMessage(MessageOf(body).value);
      CollectTwo(Payload(body), t, PayloadsOf);
      CollectAppend(c.trace, [Payload(body), t], PayloadsOf);
    }
  }

  // ---------- when the state changes ----------

  /** The handler's read or write has failed, or its header is refused; an aborted header read is not
      taken for a failure. */
  predicate Breaks(op: Pending, how: Completion)
    requires CanEnd(op, how)
  {
    match op
    case HeaderRead => how.error == OtherError || (how.error == NoError && !Judge(how.data).Body?)
    case BodyRead(_) => how.error != NoError
    case Write(_) => how.error != NoError
    case _ => false
  }

  /** A connection ends exactly by request, or by a handler that finds it broken. */
  lemma ConnectionEnds(c: Client, step: Step)
    requires Enabled(c, step) && c.state == Connected
    ensures var d := Next(c, step);
            d.state == if step.UserDisconnect? || (step.Complete? && Breaks(c.pending[step.k], step.how)) then Waiting else Connected
  {
    if step.Complete? && c.pending[step.k].BodyRead? && step.how.error == NoError {
      var d := c.(pending := Without(c.pending, step.k));
      assert React(d, EvtRcvdMessage(step.how.data)).state == Connected;
    }
  }

  /** Negotiating ends with a connection exactly when an attempt succeeds; without one by request, when the
      name has no endpoints, or when the last endpoint is refused, unless that is because of an abort. */
  lemma NegotiatingEnds(c: Client, step: Step)
    requires Enabled(c, step) && c.state == Negotiating && Tracked(c.pending, c.chains)
    ensures var d := Next(c, step);
            d.state == match step
                       case UserDisconnect => Waiting
                       case Complete(k, how) =>
                         (match c.pending[k]
                          case Resolve => if how.endpoints == [] && how.error != OperationAborted then Waiting else Negotiating
                          case Connect(_, _, n) =>
                            (match d.chains[n].report
                             case Succeeded => Connected
                             case Exhausted => Waiting
                             case Open => Negotiating)
                          case _ => Negotiating)
                       case _ => Negotiating
  {
    if step.Complete? && c.pending[step.k].Connect? {
      ConnectOutcome(c, step.k, step.how.error);
      assert Next(c, step) == Next(c, Complete(step.k, Ended(step.how.error, [])));
    }
  }

  /** Late handlers of an earlier attempt do not wake a waiting client; only a request does. */
  lemma WaitingEnds(c: Client, step: Step)
    requires Enabled(c, step) && c.state == Waiting
    ensures Next(c, step).state == if step == UserConnect(true) then Negotiating else Waiting
  {
    if step.Complete? && c.pending[step.k].BodyRead? {
      var d := c.(pending := Without(c.pending, step.k));
      assert React(d, EvtRcvdMessage(step.how.data)) == d;
    }
  }
}
