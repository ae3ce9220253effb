/** The client's connection state machine (src/clientnode/statemachine.cpp,
    include/clientnode/statemachine.hpp), driven by user requests and by handlers that may run in any
    state, late ones of an earlier attempt included.
 */
module ClientProtocol {
  import opened Bytes
  import opened MessageLayers
  import opened Framing

  // ---------- states ----------

  datatype State = Waiting | Negotiating | Connected

  datatype Endpoint = Endpoint(address: string, port: nat)

  datatype ErrorCode = NoError | OperationAborted | OtherError

  /** A handler that the client's event loop holds. A connect handler carries the iterator over the
      resolved endpoints; `chain` numbers the attempt it belongs to. */
  datatype Pending =
    | Resolve
    | Connect(endpoints: seq<Endpoint>, at: nat, chain: nat)
    | HeaderRead
    | BodyRead(length: nat)
    | Write(frame: seq<Byte>)

  datatype ConnectState = CnstDisconnected | CnstConnecting | CnstConnected

  datatype Reason = ConnectFailed | SocketClosed | UserRequested | Busy

  datatype SendReason = SendOk | ServerNotConnected | ConnectionError

  /** What can be observed of a client. */
  datatype Signal =
    | ConnectRequested
    | StatusReport(newstate: ConnectState, reason: Reason)
    | Submitted(message: Message)
    | SendReport(sent: bool, why: SendReason)
    | Payload(bytes: seq<Byte>)
    | RcvMessage(received: Message)

  /** One pass over the endpoints of a resolved name: which were tried, how that ended, and what was
      reported in the end. */
  datatype Chain = Chain(endpoints: seq<Endpoint>, attempts: seq<Endpoint>, outcomes: seq<ErrorCode>, report: ChainReport)

  datatype ChainReport = Open | Succeeded | Exhausted

  /** `halted`: the reaction to a received packet has looked at the first byte of an empty payload;
      the source defines nothing from there on. */
  datatype Client = Client(state: State, pending: seq<Pending>, trace: seq<Signal>, chains: seq<Chain>, halted: bool)

  const INITIAL := Client(Waiting, [], [], [], false)

  // ---------- reactions ----------

  datatype Event =
    | EvtConnectRequest(threadStarts: bool)
    | EvtConnectReport(success: bool)
    | EvtDisconnectRequest
    | EvtDisconnected
    | EvtSendMsg(message: Message)
    | EvtRcvdMessage(data: seq<Byte>)

  function Signals(c: Client, signals: seq<Signal>): Client {
    c.(trace := c.trace + signals)
  }

  function Queue(c: Client, op: Pending): Client {
    c.(pending := c.pending + [op])
  }

  /** `process_event`: a state ignores the events it does not list. */
  function React(c: Client, e: Event): Client {
    match (c.state, e)
    case (Waiting, EvtConnectRequest(threadStarts)) =>
      var d := Signals(Queue(c, Resolve), [ConnectRequested]).(state := Negotiating);
      if threadStarts then d else ConnectFailure(d)
    case (Waiting, EvtSendMsg(m)) => Signals(c, [Submitted(m), SendReport(false, ServerNotConnected)])
    case (Negotiating, EvtConnectReport(true)) =>
      Signals(c, [StatusReport(CnstConnected, UserRequested)]).(state := Connected)
    case (Negotiating, EvtConnectReport(false)) => ConnectFailure(c)
    case (Negotiating, EvtDisconnectRequest) =>
      Signals(c, [StatusReport(CnstDisconnected, UserRequested)]).(state := Waiting)
    case (Negotiating, EvtSendMsg(m)) => Signals(c, [Submitted(m), SendReport(false, ServerNotConnected)])
    case (Negotiating, EvtConnectRequest(_)) => Signals(c, [StatusReport(CnstConnecting, Busy)])
    case (Connected, EvtDisconnectRequest) =>
      Signals(c, [StatusReport(CnstDisconnected, UserRequested)]).(state := Waiting)
    case (Connected, EvtSendMsg(m)) => Queue(Signals(c, [Submitted(m)]), Write(Packet(MessageWire(m))))
    case (Connected, EvtDisconnected) =>
      Signals(c, [StatusReport(CnstDisconnected, SocketClosed)]).(state := Waiting)
    case (Connected, EvtRcvdMessage(data)) => Accept(c, data)
    case (Connected, EvtConnectRequest(_)) => Signals(c, [StatusReport(CnstConnected, Busy)])
    case _ => c
  }

  function ConnectFailure(c: Client): Client {
    Signals(c, [StatusReport(CnstDisconnected, ConnectFailed)]).(state := Waiting)
  }

  /** A received payload becomes a message if it is marked as one and parses; other payloads are skipped. */
  function Accept(c: Client, data: seq<Byte>): Client {
    if data == [] then c.(halted := true)
    else if data[0] == NEAR_ID && MessageOf(data).Ok? then Signals(c, [Payload(data), RcvMessage(MessageOf(data).value)])
    else Signals(c, [Payload(data)])
  }

  // ---------- handlers ----------

  datatype Completion =
    | Resolved(error: ErrorCode, endpoints: seq<Endpoint>)
    | Ended(error: ErrorCode, data: seq<Byte>)

  /** A read succeeds exactly with its buffer full. */
  predicate CanEnd(op: Pending, how: Completion) {
    match op
    case Resolve => how.Resolved?
    case Connect(_, _, _) => how.Ended?
    case HeaderRead => how.Ended? && (how.error == NoError ==> |how.data| == SEGMENTATION_HEADER)
    case BodyRead(n) => how.Ended? && (how.error == NoError ==> |how.data| == n)
    case Write(_) => how.Ended?
  }

  function Resolving(c: Client, error: ErrorCode, endpoints: seq<Endpoint>): Client {
    if endpoints != [] then
      Queue(c, Connect(endpoints, 0, |c.chains|))
      .(chains := c.chains + [Chain(endpoints, [endpoints[0]], [], Open)])
    else if error == OperationAborted then c
    else React(c, EvtConnectReport(false))
  }

  function Log(c: Client, chain: nat, l: Chain): Client
    requires chain < |c.chains|
  {
    c.(chains := c.chains[chain := l])
  }

  function Connecting(c: Client, endpoints: seq<Endpoint>, at: nat, chain: nat, error: ErrorCode): Client
    requires chain < |c.chains| && at < |endpoints|
  {
    var l := c.chains[chain].(outcomes := c.chains[chain].outcomes + [error]);
    if error == NoError then
      React(Queue(Log(c, chain, l.(report := Succeeded)), HeaderRead), EvtConnectReport(true))
    else if at + 1 < |endpoints| then
      Queue(Log(c, chain, l.(attempts := l.attempts + [endpoints[at + 1]])), Connect(endpoints, at + 1, chain))
    else if error == OperationAborted then Log(c, chain, l)
    else React(Log(c, chain, l.(report := Exhausted)), EvtConnectReport(false))
  }

  function HeaderHandled(c: Client, error: ErrorCode, h: seq<Byte>): Client
    requires error == NoError ==> |h| == SEGMENTATION_HEADER
  {
    match error
    case OperationAborted => c
    case OtherError => React(c, EvtDisconnected)
    case NoError =>
      match Judge(h)
      case Body(n) => Queue(c, BodyRead(n))
      case _ => React(c, EvtDisconnected)
  }

  function BodyHandled(c: Client, error: ErrorCode, body: seq<Byte>): Client {
    if error != NoError then React(c, EvtDisconnected)
    else
      var d := React(c, EvtRcvdMessage(body));
      if d.halted then d else Queue(d, HeaderRead)
  }

  function WriteHandled(c: Client, error: ErrorCode): Client {
    if error == NoError then Signals(c, [SendReport(true, SendOk)])
    else React(Signals(c, [SendReport(false, ConnectionError)]), EvtDisconnected)
  }

  function Without(pending: seq<Pending>, k: nat): seq<Pending>
    requires k < |pending|
  {
    pending[..k] + pending[k + 1..]
  }

  /** A connect handler's iterator stands on an endpoint; every reachable state is like that. */
  predicate Dereferenceable(c: Client, op: Pending) {
    op.Connect? ==> op.chain < |c.chains| && op.at < |op.endpoints|
  }

  function Completing(c: Client, k: nat, how: Completion): Client
    requires k < |c.pending| && CanEnd(c.pending[k], how)
    requires Dereferenceable(c, c.pending[k])
  {
    var d := c.(pending := Without(c.pending, k));
    match c.pending[k]
    case Resolve => Resolving(d, how.error, how.endpoints)
    case Connect(es, at, chain) => Connecting(d, es, at, chain, how.error)
    case HeaderRead => HeaderHandled(d, how.error, how.data)
    case BodyRead(_) => BodyHandled(d, how.error, how.data)
    case Write(_) => WriteHandled(d, how.error)
  }

  // ---------- runs ----------

  /** The user asks for something, or the k-th waiting handler runs. */
  datatype Step =
    | UserConnect(threadStarts: bool)
    | UserDisconnect
    | UserSend(message: Message)
    | Complete(k: nat, how: Completion)

  predicate Enabled(c: Client, step: Step) {
    !c.halted &&
    (step.Complete? ==>
       step.k < |c.pending| && CanEnd(c.pending[step.k], step.how) && Dereferenceable(c, c.pending[step.k]))
  }

  function Next(c: Client, step: Step): Client
    requires Enabled(c, step)
  {
    match step
    case UserConnect(threadStarts) => React(c, EvtConnectRequest(threadStarts))
    case UserDisconnect => React(c, EvtDisconnectRequest)
    case UserSend(m) => React(c, EvtSendMsg(m))
    case Complete(k, how) => Completing(c, k, how)
  }

  predicate Possible(c: Client, steps: seq<Step>)
    decreases |steps|
  {
    steps == [] || (Enabled(c, steps[0]) && Possible(Next(c, steps[0]), steps[1..]))
  }

  function Run(c: Client, steps: seq<Step>): Client
    requires Possible(c, steps)
    decreases |steps|
  {
    if steps == [] then c else Run(Next(c, steps[0]), steps[1..])
  }
}
