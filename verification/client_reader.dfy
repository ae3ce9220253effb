/** What the client makes of the bytes it reads, in every run with one accepted connect request.

    Only one request, because a second one may find the handlers of the first still at work: leaving a
    connection does not cancel a name that is being resolved.
 */
module ClientReader {
  import opened Bytes
  import opened MessageLayers
  import opened Framing
  import opened Collecting
  import opened ClientProtocol
  import opened ClientRuns

  /** The operations that connect and read; all but the writes. */
  function ReadsOf(op: Pending): seq<Pending> {
    if op.Write? then [] else [op]
  }

  function Ops(c: Client): seq<Pending> { Collect(c.pending, ReadsOf) }

  function Given(c: Client): seq<seq<Byte>> { Collect(c.trace, PayloadsOf) }

  function Requests(c: Client, steps: seq<Step>): nat
    requires Possible(c, steps)
    decreases |steps|
  {
    if steps == [] then 0 else (if Asks(c, steps[0]) then 1 else 0) + Requests(Next(c, steps[0]), steps[1..])
  }

  predicate Asks(c: Client, step: Step) { step.UserConnect? && c.state == Waiting }

  /** The bytes that a step, or a run, reads from the socket. */
  function ReadBy(c: Client, step: Step): seq<Byte>
    requires Enabled(c, step)
  {
    if step.Complete? && (c.pending[step.k].HeaderRead? || c.pending[step.k].BodyRead?) && step.how.error == NoError
    then step.how.data else []
  }

  function Consumed(c: Client, steps: seq<Step>): seq<Byte>
    requires Possible(c, steps)
    decreases |steps|
  {
    if steps == [] then [] else ReadBy(c, steps[0]) + Consumed(Next(c, steps[0]), steps[1..])
  }

  // ---------- the invariant ----------

  /** The one operation under way fits the state and goes on where the bytes read so far have ended. */
  predicate Continues(ops: seq<Pending>, state: State, got: seq<Byte>, rest: seq<Byte>) {
    ops == [] ||
    (|ops| == 1 &&
     match ops[0]
     case Resolve => got == [] && state != Connected
     case Connect(_, _, _) => got == [] && state != Connected
     case HeaderRead => rest == [] && state != Negotiating
     case BodyRead(n) => |rest| == SEGMENTATION_HEADER && Judge(rest) == Body(n) && state != Negotiating
     case Write(_) => false)
  }

  /** Payloads `read` of the bytes `got`, of which the application was given `given`: all of them as long
      as the client is connected. */
  ghost predicate Standing(c: Client, begun: bool, got: seq<Byte>, rest: seq<Byte>, read: seq<seq<Byte>>, given: seq<seq<Byte>>) {
    && Cut(read, rest, got) && given <= read
    && (rest == [] || |rest| == SEGMENTATION_HEADER)
    && Continues(Ops(c), c.state, got, rest)
    && (!begun ==> c.state == Waiting && Ops(c) == [] && got == [])
    && (c.state == Negotiating ==> got == [])
    && (c.state == Connected && !c.halted ==> given == read)
    && (EndingOf(rest) != Incomplete ==> c.state == Waiting)
  }

  ghost predicate Session(c: Client, base: seq<seq<Byte>>, begun: bool, got: seq<Byte>) {
    exists rest, read, given :: Given(c) == base + given && Standing(c, begun, got, rest, read, given)
  }

  ghost predicate InSession(c: Client, base: seq<seq<Byte>>, got: seq<Byte>) {
    exists begun :: Session(c, base, begun, got)
  }

  // ---------- what a step does to the operations and the payloads ----------

  lemma {:induction false} NoPayloads(signals: seq<Signal>)
    requires forall k :: 0 <= k < |signals| ==> !signals[k].Payload?
    ensures Collect(signals, PayloadsOf) == []
  {
    if signals != [] {
      NoPayloads(signals[1..]);
    }
  }

  lemma GivenNothing(c: Client, signals: seq<Signal>)
    requires forall k :: 0 <= k < |signals| ==> !signals[k].Payload?
    ensures Given(Signals(c, signals)) == Given(c)
  {
    CollectAppend(c.trace, signals, PayloadsOf);
    NoPayloads(signals);
  }

  lemma OpsQueue(c: Client, op: Pending)
    ensures Ops(Queue(c, op)) == Ops(c) + ReadsOf(op)
    ensures op.Write? ==> Ops(Queue(c, op)) == Ops(c)
  {
    CollectSnoc(c.pending, op, ReadsOf);
  }

  /** The events other than received payloads. */
  lemma ReactEffects(c: Client, e: Event)
    requires !e.EvtRcvdMessage?
    ensures Given(React(c, e)) == Given(c)
    ensures Ops(React(c, e)) == if e.EvtConnectRequest? && c.state == Waiting then Ops(c) + [Resolve] else Ops(c)
  {
    ReactGives(c, e);
    var d := React(c, e);
    if d.pending != c.pending {
      OpsQueue(c, d.pending[|c.pending|]);
    }
  }

  lemma ReactGives(c: Client, e: Event)
    requires !e.EvtRcvdMessage?
    ensures Given(React(c, e)) == Given(c)
  {
    var d := React(c, e);
    var signals := d.trace[|c.trace|..];
    assert d.trace == c.trace + signals;
    GivenNothing(c, signals);
  }

  lemma AcceptEffects(c: Client, data: seq<Byte>)
    requires c.state == Connected && data != []
    ensures Given(Accept(c, data)) == Given(c) + [data]
  {
    CollectSnoc(c.trace, Payload(data), PayloadsOf);
    if MessageOf(data).Ok? {
      var t := RcvMessage(MessageOf(data).value);
      CollectTwo(Payload(data), t, PayloadsOf);
      CollectAppend(c.trace, [Payload(data), t], PayloadsOf);
    }
  }

  lemma OpsWithout(c: Client, k: nat)
    requires k < |c.pending| && |Ops(c)| <= 1
    ensures var d := c.(pending := Without(c.pending, k));
            if c.pending[k].Write? then Ops(d) == Ops(c) else Ops(d) == [] && Ops(c) == [c.pending[k]]
  {
    var front, op, back := c.pending[..k], c.pending[k], c.pending[k + 1..];
    assert c.pending == front + [op] + back;
    CollectAppend(front + [op], back, ReadsOf);
    CollectSnoc(front, op, ReadsOf);
    CollectAppend(front, back, ReadsOf);
  }

  // ---------- every step keeps it ----------

  lemma NothingCut(ps: seq<seq<Byte>>, rest: seq<Byte>)
    requires Cut(ps, rest, [])
    ensures ps == [] && rest == []
  {}

  /** A step that reads nothing and gives nothing: the state may go from connected, or from negotiating, to
      waiting; and from negotiating, before anything is read, to connected. */
  lemma Moves(c: Client, d: Client, base: seq<seq<Byte>>, begun: bool, begun': bool, got: seq<Byte>)
    requires Session(c, base, begun, got) && (begun ==> begun')
    requires Given(d) == Given(c) && d.halted == c.halted
    requires Ops(d) == Ops(c) || Ops(d) == [] ||
             (got == [] && |Ops(d)| == 1 && match Ops(d)[0]
                                            case Resolve => d.state != Connected
                                            case Connect(_, _, _) => d.state != Connected
                                            case HeaderRead => d.state != Negotiating
                                            case _ => false)
    requires !begun' ==> d.state == Waiting && Ops(d) == []
    requires d.state == c.state || d.state == Waiting ||
             (got == [] && (d.state == Negotiating ==> c.state == Waiting && Ops(d) == [Resolve]) &&
              (d.state == Connected ==> c.state == Negotiating && Ops(d) == [HeaderRead]))
    ensures Session(d, base, begun', got)
  {
    var rest, read, given :| Given(c) == base + given && Standing(c, begun, got, rest, read, given);
    if got == [] {
      NothingCut(read, rest);
    }
    assert Standing(d, begun', got, rest, read, given);
  }

  /** A step that reads nothing, gives nothing and starts nothing; the connection may end. */
  lemma Keeps(c: Client, d: Client, base: seq<seq<Byte>>, begun: bool, got: seq<Byte>)
    requires Session(c, base, begun, got) && Given(d) == Given(c) && d.halted == c.halted
    requires Ops(d) == Ops(c) || (begun && Ops(d) == [])
    requires d.state == c.state || d.state == Waiting
    ensures Session(d, base, begun, got)
  {
    var rest, read, given :| Given(c) == base + given && Standing(c, begun, got, rest, read, given);
    assert Standing(d, begun, got, rest, read, given);
  }

  lemma RequestReads(c: Client, threadStarts: bool, base: seq<seq<Byte>>, begun: bool, got: seq<Byte>)
    requires Session(c, base, begun, got) && !(begun && c.state == Waiting)
    ensures Session(React(c, EvtConnectRequest(threadStarts)), base, true, got)
  {
    ReactEffects(c, EvtConnectRequest(threadStarts));
    assert [] + [Resolve] == [Resolve];
    assert !begun ==> got == [] && Ops(c) == [] && c.state == Waiting;
    Moves(c, React(c, EvtConnectRequest(threadStarts)), base, begun, true, got);
  }

  lemma UserStepReads(c: Client, step: Step, base: seq<seq<Byte>>, begun: bool, got: seq<Byte>)
    requires Session(c, base, begun, got) && Enabled(c, step) && !step.Complete?
    requires !(begun && Asks(c, step))
    ensures Session(Next(c, step), base, begun || Asks(c, step), got)
  {
    match step
    case UserConnect(threadStarts) =>
      assert !begun ==> c.state == Waiting;
      RequestReads(c, threadStarts, base, begun, got);
    case UserDisconnect =>
      ReactEffects(c, EvtDisconnectRequest);
      Keeps(c, Next(c, step), base, begun, got);
    case UserSend(m) =>
      ReactEffects(c, EvtSendMsg(m));
      Keeps(c, Next(c, step), base, begun, got);
  }

  /** What every handler finds: it waits no more. */
  lemma Dequeued(c: Client, k: nat, base: seq<seq<Byte>>, begun: bool, got: seq<Byte>)
    requires Session(c, base, begun, got) && k < |c.pending|
    ensures var d := c.(pending := Without(c.pending, k));
            Given(d) == Given(c) &&
            (if c.pending[k].Write? then Ops(d) == Ops(c) else Ops(d) == [] && Ops(c) == [c.pending[k]] && begun) &&
            (c.pending[k].Resolve? || c.pending[k].Connect? ==> got == [] && c.state != Connected)
  {
    OpsWithout(c, k);
  }

  lemma WriteEffects(c: Client, error: ErrorCode)
    ensures var d := WriteHandled(c, error);
            Given(d) == Given(c) && Ops(d) == Ops(c) && d.halted == c.halted && (d.state == c.state || d.state == Waiting)
  {
    var report := if error == NoError then SendReport(true, SendOk) else SendReport(false, ConnectionError);
    GivenNothing(c, [report]);
    ReactEffects(Signals(c, [report]), EvtDisconnected);
  }

  lemma WriteReads(c: Client, k: nat, how: Completion, base: seq<seq<Byte>>, begun: bool, got: seq<Byte>)
    requires Session(c, base, begun, got) && Enabled(c, Complete(k, how)) && c.pending[k].Write?
    ensures Session(Next(c, Complete(k, how)), base, begun, got)
  {
    Dequeued(c, k, base, begun, got);
    var d := c.(pending := Without(c.pending, k));
    WriteEffects(d, how.error);
    Keeps(c, WriteHandled(d, how.error), base, begun, got);
  }

  lemma ResolveEffects(c: Client, error: ErrorCode, endpoints: seq<Endpoint>)
    requires Ops(c) == []
    ensures var d := Resolving(c, error, endpoints);
            Given(d) == Given(c) && d.halted == c.halted && (d.state == c.state || d.state == Waiting) &&
            (Ops(d) == [] || Ops(d) == [Connect(endpoints, 0, |c.chains|)])
  {
    if endpoints == [] {
      ReactEffects(c, EvtConnectReport(false));
    } else {
      OpsQueue(c, Connect(endpoints, 0, |c.chains|));
    }
  }

  lemma ResolveReads(c: Client, k: nat, how: Completion, base: seq<seq<Byte>>, begun: bool, got: seq<Byte>)
    requires Session(c, base, begun, got) && Enabled(c, Complete(k, how)) && c.pending[k].Resolve?
    ensures Session(Next(c, Complete(k, how)), base, begun, got)
  {
    Dequeued(c, k, base, begun, got);
    var d := c.(pending := Without(c.pending, k));
    ResolveEffects(d, how.error, how.endpoints);
    Moves(c, Resolving(d, how.error, how.endpoints), base, begun, begun, got);
  }

  lemma ConnectEffects(c: Client, endpoints: seq<Endpoint>, at: nat, n: nat, error: ErrorCode)
    requires n < |c.chains| && at < |endpoints| && Ops(c) == [] && c.state != Connected
    ensures var d := Connecting(c, endpoints, at, n, error);
            Given(d) == Given(c) && d.halted == c.halted &&
            (if error == NoError then Ops(d) == [HeaderRead] && (d.state == c.state == Waiting || d.state == Connected)
             else (Ops(d) == [] || Ops(d) == [Connect(endpoints, at + 1, n)]) && (d.state == c.state || d.state == Waiting))
  {
    var l := c.chains[n].(outcomes := c.chains[n].outcomes + [error]);
    if error == NoError {
      var d := Log(c, n, l.(report := Succeeded));
      OpsQueue(d, HeaderRead);
      ReactEffects(Queue(d, HeaderRead), EvtConnectReport(true));
    } else if at + 1 < |endpoints| {
      OpsQueue(Log(c, n, l.(attempts := l.attempts + [endpoints[at + 1]])), Connect(endpoints, at + 1, n));
    } else {
      ReactEffects(Log(c, n, l.(report := Exhausted)), EvtConnectReport(false));
    }
  }

  lemma ConnectReads(c: Client, k: nat, how: Completion, base: seq<seq<Byte>>, begun: bool, got: seq<Byte>)
    requires Session(c, base, begun, got) && Enabled(c, Complete(k, how)) && c.pending[k].Connect?
    ensures Session(Next(c, Complete(k, how)), base, begun, got)
  {
    Dequeued(c, k, base, begun, got);
    var d, op := c.(pending := Without(c.pending, k)), c.pending[k];
    var e := Connecting(d, op.endpoints, op.at, op.chain, how.error);
    ConnectEffects(d, op.endpoints, op.at, op.chain, how.error);
    Moves(c, e, base, begun, begun, got);
  }

  lemma ReadFails(c: Client, k: nat, how: Completion, base: seq<seq<Byte>>, begun: bool, got: seq<Byte>)
    requires Session(c, base, begun, got) && Enabled(c, Complete(k, how))
    requires (c.pending[k].HeaderRead? || c.pending[k].BodyRead?) && how.error != NoError
    ensures Session(Next(c, Complete(k, how)), base, begun, got)
  {
    Dequeued(c, k, base, begun, got);
    ReactEffects(c.(pending := Without(c.pending, k)), EvtDisconnected);
    Keeps(c, Next(c, Complete(k, how)), base, begun, got);
  }

  lemma HeaderEffects(c: Client, h: seq<Byte>)
    requires |h| == SEGMENTATION_HEADER && Ops(c) == []
    ensures var d := HeaderHandled(c, NoError, h);
            Given(d) == Given(c) && d.halted == c.halted &&
            (if Judge(h).Body? then Ops(d) == [BodyRead(Judge(h).length)] && d.state == c.state
             else Ops(d) == [] && d.state == if c.state == Connected then Waiting else c.state)
  {
    if Judge(h).Body? {
      OpsQueue(c, BodyRead(Judge(h).length));
    } else {
      ReactEffects(c, EvtDisconnected);
    }
  }

  lemma HeaderReads(c: Client, k: nat, h: seq<Byte>, base: seq<seq<Byte>>, begun: bool, got: seq<Byte>)
    requires Session(c, base, begun, got) && Enabled(c, Complete(k, Ended(NoError, h))) && c.pending[k].HeaderRead?
    ensures Session(Next(c, Complete(k, Ended(NoError, h))), base, begun, got + h)
  {
    Dequeued(c, k, base, begun, got);
    var rest, read, given :| Given(c) == base + given && Standing(c, begun, got, rest, read, given);
    var d := c.(pending := Without(c.pending, k));
    CutHeader(read, got, h);
    assert h[..SEGMENTATION_HEADER] == h;
    HeaderEffects(d, h);
    assert Standing(HeaderHandled(d, NoError, h), begun, got + h, h, read, given);
  }

  lemma BodyEffects(c: Client, body: seq<Byte>)
    requires Ops(c) == []
    ensures var d := BodyHandled(c, NoError, body);
            d.state == c.state && (Ops(d) == [HeaderRead] || (d.halted && Ops(d) == [])) &&
            (d.halted == (c.halted || (c.state == Connected && body == []))) &&
            Given(d) == if c.state == Connected && body != [] then Given(c) + [body] else Given(c)
  {
    var d := React(c, EvtRcvdMessage(body));
    OpsQueue(d, HeaderRead);
    if c.state == Connected && body != [] {
      AcceptEffects(c, body);
    }
  }

  lemma PrefixSnoc<T>(p: seq<T>, s: seq<T>, x: T)
    requires p <= s
    ensures p <= s + [x]
  {}

  lemma StandingAfterBody(c: Client, e: Client, body: seq<Byte>, begun: bool, got: seq<Byte>,
                          rest: seq<Byte>, read: seq<seq<Byte>>, given: seq<seq<Byte>>)
    requires Standing(c, begun, got, rest, read, given) && Ops(c) == [BodyRead(|body|)]
    requires e.state == c.state && (Ops(e) == [HeaderRead] || Ops(e) == []) && (c.halted ==> e.halted)
    requires c.state == Connected && body == [] ==> e.halted
    ensures Standing(e, begun, got + body, [], read + [body],
                     if c.state == Connected && body != [] && !c.halted then given + [body] else given)
  {
    CutBody(read, got, rest, body);
    PrefixSnoc(given, read, body);
  }

  lemma BodyTaken(c: Client, e: Client, body: seq<Byte>, base: seq<seq<Byte>>, begun: bool, got: seq<Byte>)
    requires Session(c, base, begun, got) && Ops(c) == [BodyRead(|body|)] && !c.halted
    requires e.state == c.state && (Ops(e) == [HeaderRead] || Ops(e) == [])
    requires c.state == Connected && body == [] ==> e.halted
    requires Given(e) == if c.state == Connected && body != [] then Given(c) + [body] else Given(c)
    ensures Session(e, base, begun, got + body)
  {
    var rest, read, given :| Given(c) == base + given && Standing(c, begun, got, rest, read, given);
    StandingAfterBody(c, e, body, begun, got, rest, read, given);
    Associative(base, given, [body]);
  }

  lemma BodyReads(c: Client, k: nat, body: seq<Byte>, base: seq<seq<Byte>>, begun: bool, got: seq<Byte>)
    requires Session(c, base, begun, got) && Enabled(c, Complete(k, Ended(NoError, body))) && c.pending[k].BodyRead?
    ensures Session(Next(c, Complete(k, Ended(NoError, body))), base, begun, got + body)
  {
    Dequeued(c, k, base, begun, got);
    var d := c.(pending := Without(c.pending, k));
    BodyEffects(d, body);
    BodyTaken(c, BodyHandled(d, NoError, body), body, base, begun, got);
  }

  lemma StepReads(c: Client, step: Step, base: seq<seq<Byte>>, begun: bool, got: seq<Byte>)
    requires Session(c, base, begun, got) && Enabled(c, step) && !(begun && Asks(c, step))
    ensures Session(Next(c, step), base, begun || Asks(c, step), got + ReadBy(c, step))
  {
    if !step.Complete? {
      UserStepReads(c, step, base, begun, got);
      assert got + ReadBy(c, step) == got;
    } else {
      var k, how := step.k, step.how;
      var op := c.pending[k];
      if (op.HeaderRead? || op.BodyRead?) && how.error == NoError {
        assert step == Complete(k, Ended(NoError, how.data));
        if op.HeaderRead? { HeaderReads(c, k, how.data, base, begun, got); } else { BodyReads(c, k, how.data, base, begun, got); }
      } else {
        match op {
          case Resolve => ResolveReads(c, k, how, base, begun, got);
          case Connect(_, _, _) => ConnectReads(c, k, how, base, begun, got);
          case Write(_) => WriteReads(c, k, how, base, begun, got);
          case _ => ReadFails(c, k, how, base, begun, got);
        }
        assert got + ReadBy(c, step) == got;
      }
    }
  }

  lemma {:induction false} RunReads(c: Client, steps: seq<Step>, base: seq<seq<Byte>>, begun: bool, got: seq<Byte>)
    requires Session(c, base, begun, got) && Possible(c, steps)
    requires Requests(c, steps) + (if begun then 1 else 0) <= 1
    ensures InSession(Run(c, steps), base, got + Consumed(c, steps))
    decreases |steps|
  {
    if steps == [] {
      assert got + Consumed(c, steps) == got;
      assert Session(Run(c, steps), base, begun, got + Consumed(c, steps));
    } else {
      var d, more := Next(c, steps[0]), ReadBy(c, steps[0]);
      StepReads(c, steps[0], base, begun, got);
      RunReads(d, steps[1..], base, begun || Asks(c, steps[0]), got + more);
      Associative(got, more, Consumed(d, steps[1..]));
    }
  }

  /** Nobody has asked for a connection, and nothing of an earlier one is left but writes. */
  predicate Quiet(c: Client) {
    c.state == Waiting && Ops(c) == []
  }

  ghost predicate Outcome(c: Client, d: Client, delivery: Delivery, given: seq<seq<Byte>>) {
    && Given(d) == Given(c) + given && given <= delivery.payloads
    && (d.state == Connected && !d.halted ==> given == delivery.payloads || given + [[]] == delivery.payloads)
  }

  lemma SessionOutcome(c: Client, d: Client, begun: bool, got: seq<Byte>)
    requires Session(d, Given(c), begun, got)
    ensures |Ops(d)| <= 1 && (Deliver(got).ending != Incomplete ==> d.state == Waiting)
    ensures exists given :: Outcome(c, d, Deliver(got), given)
  {
    var rest, read, given :| Given(d) == Given(c) + given && Standing(d, begun, got, rest, read, given);
    DeliverCut(read, rest, got);
    if EmptyDue(rest) != [] {
      PrefixSnoc(given, read, []);
    }
    assert Outcome(c, d, Deliver(got), given);
  }

  /** In every run with one accepted request, from the start or whenever an earlier connection has died
      away: one read at most is outstanding, and the application is given the payloads of the bytes read
      from the server, in order and, as long as the client is connected, all of them. A header that is
      refused, or too small for itself, ends the connection. */
  lemma ClientReads(c: Client, steps: seq<Step>)
    requires Quiet(c) && Possible(c, steps) && Requests(c, steps) <= 1
    ensures var d := Run(c, steps); var delivery := Deliver(Consumed(c, steps));
            |Ops(d)| <= 1 && (delivery.ending != Incomplete ==> d.state == Waiting) &&
            exists given :: Outcome(c, d, delivery, given)
  {
    assert Given(c) + [] == Given(c) && Cut([], [], []);
    assert Standing(c, false, [], [], [], []);
    assert Session(c, Given(c), false, []);
    RunReads(c, steps, Given(c), false, []);
    assert [] + Consumed(c, steps) == Consumed(c, steps);
    assert InSession(Run(c, steps), Given(c), Consumed(c, steps));
    var b :| Session(Run(c, steps), Given(c), b, Consumed(c, steps));
    SessionOutcome(c, Run(c, steps), b, Consumed(c, steps));
  }
}
