/** What each step of the client does, seen from outside: what it reports and why, and which operations it
    starts.
 */
module ClientSteps {
  import opened Bytes
  import opened MessageLayers
  import opened Framing
  import opened Collecting
  import opened ClientProtocol
  import opened ClientRuns

  // ---------- what is said ----------

  /** The report of a change of state: why a connection has come up, could not come up, or has gone. */
  function Change(before: State, after: State): seq<Signal> {
    if after == before then []
    else if after == Connected then [StatusReport(CnstConnected, UserRequested)]
    else [StatusReport(CnstDisconnected, if before == Negotiating then ConnectFailed else SocketClosed)]
  }

  /** What the application is told at a step, given the states before and after. */
  function Said(c: Client, step: Step, after: State): seq<Signal>
    requires Enabled(c, step)
  {
    match step
    case UserConnect(threadStarts) =>
      if c.state == Waiting
      then [ConnectRequested] + if threadStarts then [] else [StatusReport(CnstDisconnected, ConnectFailed)]
      else [StatusReport(NameOf(c.state), Busy)]
    case UserDisconnect =>
      if c.state == Waiting then [] else [StatusReport(CnstDisconnected, UserRequested)]
    case UserSend(m) =>
      [Submitted(m)] + if c.state == Connected then [] else [SendReport(false, ServerNotConnected)]
    case Complete(k, how) =>
      match c.pending[k]
      case Write(_) =>
        [if how.error == NoError then SendReport(true, SendOk) else SendReport(false, ConnectionError)] +
        Change(c.state, after)
      case BodyRead(_) =>
        if how.error == NoError && c.state == Connected then Given(how.data) else Change(c.state, after)
      case _ => Change(c.state, after)
  }

  /** A payload, and the message if it is one: marked 0x41 and at least 21 bytes long. */
  function Given(data: seq<Byte>): seq<Signal> {
    if data == [] then []
    else [Payload(data)] + if data[0] == 0x41 && |data| >= 21 then [RcvMessage(MessageOf(data).value)] else []
  }

  /** Every step says exactly this: each report with its reason, and nothing is left unsaid. */
  lemma StepSays(c: Client, step: Step)
    requires Enabled(c, step)
    ensures Next(c, step).trace == c.trace + Said(c, step, Next(c, step).state)
  {
    if step.Complete? {
      CompletingSays(c, step.k, step.how);
    } else {
      UserSays(c, step);
    }
  }

  lemma UserSays(c: Client, step: Step)
    requires Enabled(c, step) && !step.Complete?
    ensures Next(c, step).trace == c.trace + Said(c, step, Next(c, step).state)
  {}

  lemma CompletingSays(c: Client, k: nat, how: Completion)
    requires Enabled(c, Complete(k, how))
    ensures Next(c, Complete(k, how)).trace == c.trace + Said(c, Complete(k, how), Next(c, Complete(k, how)).state)
  {}

  /** A connect request that comes too early or twice is answered, and changes nothing. */
  lemma BusyAnswered(c: Client, threadStarts: bool)
    requires Enabled(c, UserConnect(threadStarts)) && c.state != Waiting
    ensures Next(c, UserConnect(threadStarts)) == c.(trace := c.trace + [StatusReport(NameOf(c.state), Busy)])
  {}

  // ---------- which operations are started ----------

  function Begun(c: Client, step: Step): seq<Pending>
    requires Enabled(c, step)
  {
    match step
    case UserConnect(_) => if c.state == Waiting then [Resolve] else []
    case UserDisconnect => []
    case UserSend(m) => if c.state == Connected then [Write(Packet(MessageWire(m)))] else []
    case Complete(k, how) =>
      match c.pending[k]
      case Resolve => if how.endpoints == [] then [] else [Connect(how.endpoints, 0, |c.chains|)]
      case Connect(es, at, n) =>
        if how.error == NoError then [HeaderRead] else if at + 1 < |es| then [Connect(es, at + 1, n)] else []
      case HeaderRead =>
        if how.error != NoError then []
        else (match Judge(how.data) case Body(n) => [BodyRead(n)] case _ => [])
      case BodyRead(_) =>
        if how.error != NoError || (c.state == Connected && how.data == []) then [] else [HeaderRead]
      case Write(_) => []
  }

  /** Every step starts exactly these operations; the handler that has run waits no more, and no other is
      touched, whatever the state. */
  lemma StepBegins(c: Client, step: Step)
    requires Enabled(c, step)
    ensures Next(c, step).pending == (if step.Complete? then Without(c.pending, step.k) else c.pending) + Begun(c, step)
  {
    if step.Complete? {
      CompletingBegins(c, step.k, step.how);
    }
  }

  lemma CompletingBegins(c: Client, k: nat, how: Completion)
    requires Enabled(c, Complete(k, how))
    ensures Next(c, Complete(k, how)).pending == Without(c.pending, k) + Begun(c, Complete(k, how))
  {}

  /** The one step after which nothing is defined. */
  lemma HaltsExactly(c: Client, step: Step)
    requires Enabled(c, step)
    ensures Next(c, step).halted <==>
              step.Complete? && c.pending[step.k].BodyRead? && c.state == Connected && step.how == Ended(NoError, [])
  {}

  // ---------- whole runs ----------

  /** The answer to a connect request: accepted, or busy. */
  function AnswersOf(s: Signal): seq<Signal> {
    if s.ConnectRequested? || (s.StatusReport? && s.reason == Busy) then [s] else []
  }

  function AskedBy(step: Step): seq<Step> {
    if step.UserConnect? then [step] else []
  }

  function SentBy(step: Step): seq<Message> {
    if step.UserSend? then [step.message] else []
  }

  lemma {:induction false} NoAnswers(signals: seq<Signal>)
    requires forall k :: 0 <= k < |signals| ==> AnswersOf(signals[k]) == []
    ensures Collect(signals, AnswersOf) == []
  {
    if signals != [] {
      NoAnswers(signals[1..]);
    }
  }

  lemma {:induction false} NoSubmissions(signals: seq<Signal>)
    requires forall k :: 0 <= k < |signals| ==> SubmissionsOf(signals[k]) == []
    ensures Collect(signals, SubmissionsOf) == []
  {
    if signals != [] {
      NoSubmissions(signals[1..]);
    }
  }

  lemma RequestAnswered(c: Client, threadStarts: bool, after: State)
    requires Enabled(c, UserConnect(threadStarts))
    ensures var said := Said(c, UserConnect(threadStarts), after);
            |Collect(said, AnswersOf)| == 1 && Collect(said, SubmissionsOf) == []
  {
    var said := Said(c, UserConnect(threadStarts), after);
    NoSubmissions(said);
    assert said == [said[0]] + said[1..];
    CollectAppend([said[0]], said[1..], AnswersOf);
    CollectOne(said[0], AnswersOf);
    NoAnswers(said[1..]);
  }

  lemma MessageTaken(c: Client, m: Message, after: State)
    requires Enabled(c, UserSend(m))
    ensures var said := Said(c, UserSend(m), after);
            Collect(said, AnswersOf) == [] && Collect(said, SubmissionsOf) == [m]
  {
    var said := Said(c, UserSend(m), after);
    NoAnswers(said);
    assert said == [said[0]] + said[1..];
    CollectAppend([said[0]], said[1..], SubmissionsOf);
    CollectOne(said[0], SubmissionsOf);
    NoSubmissions(said[1..]);
  }

  lemma StepAnswers(c: Client, step: Step)
    requires Enabled(c, step)
    ensures var said := Said(c, step, Next(c, step).state);
            |Collect(said, AnswersOf)| == |AskedBy(step)| && Collect(said, SubmissionsOf) == SentBy(step)
  {
    var after := Next(c, step).state;
    match step
    case UserConnect(threadStarts) => RequestAnswered(c, threadStarts, after);
    case UserSend(m) => MessageTaken(c, m, after);
    case _ =>
      NoAnswers(Said(c, step, after));
      NoSubmissions(Said(c, step, after));
  }

  /** In every run each connect request is answered once, at once, and each message is taken once, in order. */
  lemma {:induction false} RequestsAnswered(c: Client, steps: seq<Step>)
    requires Possible(c, steps)
    ensures var d := Run(c, steps);
            |Collect(d.trace, AnswersOf)| == |Collect(c.trace, AnswersOf)| + |Collect(steps, AskedBy)| &&
            Collect(d.trace, SubmissionsOf) == Collect(c.trace, SubmissionsOf) + Collect(steps, SentBy)
    decreases |steps|
  {
    if steps == [] {
      assert Collect(c.trace, SubmissionsOf) + [] == Collect(c.trace, SubmissionsOf);
    } else {
      var d := Next(c, steps[0]);
      var said := Said(c, steps[0], d.state);
      StepSays(c, steps[0]);
      StepAnswers(c, steps[0]);
      CollectAppend(c.trace, said, AnswersOf);
      CollectAppend(c.trace, said, SubmissionsOf);
      RequestsAnswered(d, steps[1..]);
      Associative(Collect(c.trace, SubmissionsOf), SentBy(steps[0]), Collect(steps[1..], SentBy));
    }
  }
}
