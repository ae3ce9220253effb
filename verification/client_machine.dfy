/** The client's machine object (src/clientnode/statemachine.cpp): its state, the handlers its event loop
    holds, and its reactions. Each entry point is proved to be the step of `ClientProtocol`.
 */
module ClientMachine {
  import opened Bytes
  import opened MessageLayers
  import opened Framing
  import opened ClientProtocol
  import ClientSteps

  class ClientnodeMachine {
    const host: Host
    var state: State
    var pending: seq<Pending>
    var halted: bool
    ghost var trace: seq<Signal>
    var chains: seq<Chain>

    ghost function View(): Client
      reads this
    {
      Client(state, pending, trace, chains, halted)
    }

    constructor (host: Host)
      ensures View() == INITIAL && this.host == host
    {
      this.host := host;
      state, pending, halted, trace, chains := Waiting, [], false, [], [];
    }

    method Emit(ghost signal: Signal)
      modifies this`trace
      ensures trace == old(trace) + [signal]
    {
      trace := trace + [signal];
    }

    method Start(op: Pending)
      modifies this`pending
      ensures pending == old(pending) + [op]
    {
      pending := pending + [op];
    }

    // ---------- reactions ----------

    /** `StateWaiting`: asks for the name to be resolved and enters `StateNegotiating`, whose constructor
        starts the event loop and posts a failure report if it cannot. */
    method WaitingConnectRequest(threadStarts: bool)
      requires state == Waiting
      modifies this
      ensures View() == React(old(View()), EvtConnectRequest(threadStarts))
    {
      Start(Resolve);
      Emit(ConnectRequested);
      state := Negotiating;
      if !threadStarts {
        NegotiatingConnectReport(false);
      }
    }

    method NegotiatingConnectReport(success: bool)
      requires state == Negotiating
      modifies this`state, this`trace
      ensures View() == React(old(View()), EvtConnectReport(success))
    {
      if success {
        Emit(StatusReport(CnstConnected, UserRequested));
        state := Connected;
      } else {
        Emit(StatusReport(CnstDisconnected, ConnectFailed));
        state := Waiting;
      }
    }

    /** Both `StateNegotiating` and `StateConnected`. */
    method UserDisconnectRequest()
      requires state != Waiting
      modifies this`state, this`trace
      ensures View() == React(old(View()), EvtDisconnectRequest)
    {
      Emit(StatusReport(CnstDisconnected, UserRequested));
      state := Waiting;
    }

    /** Both `StateNegotiating` and `StateConnected`. */
    method BusyConnectRequest(threadStarts: bool)
      requires state != Waiting
      modifies this`trace
      ensures View() == React(old(View()), EvtConnectRequest(threadStarts))
    {
      Emit(StatusReport(if state == Negotiating then CnstConnecting else CnstConnected, Busy));
    }

    /** Both `StateWaiting` and `StateNegotiating`. */
    method RefuseSendMsg(message: Message)
      requires state != Connected
      modifies this`trace
      ensures View() == React(old(View()), EvtSendMsg(message))
    {
      Emit(Submitted(message));
      Emit(SendReport(false, ServerNotConnected));
      assert trace == old(trace) + [Submitted(message), SendReport(false, ServerNotConnected)];
    }

    method ConnectedSendMsg(message: Message)
      requires state == Connected
      modifies this
      ensures View() == React(old(View()), EvtSendMsg(message))
    {
      Emit(Submitted(message));
      var data := Serialize(host, SegmentationLayer(NearUserMessage(message)));
      Start(Write(data));
    }

    method ConnectedDisconnected()
      requires state == Connected
      modifies this`state, this`trace
      ensures View() == React(old(View()), EvtDisconnected)
    {
      Emit(StatusReport(CnstDisconnected, SocketClosed));
      state := Waiting;
    }

    method ConnectedRcvdMessage(data: Slice)
      requires state == Connected && data.Valid()
      modifies this`trace, this`halted
      ensures View() == React(old(View()), EvtRcvdMessage(data.Bytes()))
    {
      if data.size == 0 {
        halted := true;
        return;
      }
      Emit(Payload(data.Bytes()));
      if data.block[data.begin] == NEAR_ID {
        var usermsg := ParseMessage(host, data);
        if usermsg.Ok? {
          Emit(RcvMessage(usermsg.value));
          assert trace == old(trace) + [Payload(data.Bytes()), RcvMessage(usermsg.value)];
        }
      }
    }

    // ---------- process_event: the reaction lists ----------

    method ProcessConnectReport(success: bool)
      modifies this`state, this`trace
      ensures View() == React(old(View()), EvtConnectReport(success))
    {
      if state == Negotiating {
        NegotiatingConnectReport(success);
      }
    }

    method ProcessDisconnected()
      modifies this`state, this`trace
      ensures View() == React(old(View()), EvtDisconnected)
    {
      if state == Connected {
        ConnectedDisconnected();
      }
    }

    method ProcessRcvdMessage(data: Slice)
      requires data.Valid()
      modifies this`trace, this`halted
      ensures View() == React(old(View()), EvtRcvdMessage(data.Bytes()))
    {
      if state == Connected {
        ConnectedRcvdMessage(data);
      }
    }

    method ProcessUserRequest(step: Step)
      requires !step.Complete? && !halted
      modifies this
      ensures View() == Next(old(View()), step)
      ensures step.UserConnect? && old(state) != Waiting ==>
                trace == old(trace) + [StatusReport(if state == Negotiating then CnstConnecting else CnstConnected, Busy)] &&
                state == old(state) && pending == old(pending)
    {
      match step
      case UserConnect(threadStarts) =>
        if state == Waiting { WaitingConnectRequest(threadStarts); } else { BusyConnectRequest(threadStarts); }
      case UserDisconnect =>
        if state != Waiting { UserDisconnectRequest(); }
      case UserSend(message) =>
        if state == Connected { ConnectedSendMsg(message); } else { RefuseSendMsg(message); }
    }

    // ---------- handlers ----------

    method ResolveHandler(error: ErrorCode, endpoints: seq<Endpoint>)
      modifies this
      ensures View() == Resolving(old(View()), error, endpoints)
    {
      if endpoints == [] {
        if error == OperationAborted {
          return;
        }
        ProcessConnectReport(false);
        return;
      }
      Start(Connect(endpoints, 0, |chains|));
      chains := chains + [Chain(endpoints, [endpoints[0]], [], Open)];
    }

    method ConnectHandler(error: ErrorCode, endpoints: seq<Endpoint>, it: nat, chain: nat)
      requires chain < |chains| && it < |endpoints|
      modifies this
      ensures View() == Connecting(old(View()), endpoints, it, chain, error)
    {
      var tried := chains[chain].(outcomes := chains[chain].outcomes + [error]);
      if error == NoError {
        chains := chains[chain := tried.(report := Succeeded)];
        Start(HeaderRead);
        ProcessConnectReport(true);
        return;
      }
      var next := it + 1;
      if next != |endpoints| {
        chains := chains[chain := tried.(attempts := tried.attempts + [endpoints[next]])];
        Start(Connect(endpoints, next, chain));
        return;
      }
      if error == OperationAborted {
        chains := chains[chain := tried];
        return;
      }
      chains := chains[chain := tried.(report := Exhausted)];
      ProcessConnectReport(false);
    }

    /** The size is checked and the body buffer allocated inside a `try`: whatever is thrown there ends
        the connection. */
    method ReceiveSegmentationHeaderHandler(error: ErrorCode, rcvbuf: seq<Byte>)
      requires error == NoError ==> |rcvbuf| == SEGMENTATION_HEADER
      modifies this
      ensures View() == HeaderHandled(old(View()), error, rcvbuf)
    {
      if error != NoError {
        if error != OperationAborted {
          ProcessDisconnected();
        }
        return;
      }
      var header_data := DecodeHeader(host, rcvbuf);
      if header_data.Thrown? || header_data.value > MAX_PACKETSIZE ||
         BodyLength(header_data.value) > MAX_VECTOR {
        ProcessDisconnected();
        return;
      }
      Start(BodyRead(BodyLength(header_data.value)));
    }

    method ReceiveSegmentationBodyHandler(error: ErrorCode, rcvbuf: seq<Byte>)
      requires !halted
      modifies this
      ensures View() == BodyHandled(old(View()), error, rcvbuf)
    {
      if error != NoError {
        ProcessDisconnected();
        return;
      }
      var segmlayer := Slice(rcvbuf, 0, |rcvbuf|);
      assert segmlayer.Bytes() == rcvbuf;
      ProcessRcvdMessage(segmlayer);
      if !halted {
        Start(HeaderRead);
      }
    }

    method WriteHandler(error: ErrorCode)
      modifies this`state, this`trace
      ensures View() == WriteHandled(old(View()), error)
    {
      if error == NoError {
        Emit(SendReport(true, SendOk));
      } else {
        Emit(SendReport(false, ConnectionError));
        ProcessDisconnected();
      }
    }

    // ---------- the event loop ----------

    method RunHandler(k: nat, how: Completion)
      requires !halted && k < |pending| && CanEnd(pending[k], how) && Dereferenceable(View(), pending[k])
      modifies this
      ensures View() == Completing(old(View()), k, how)
    {
      var op := pending[k];
      pending := pending[..k] + pending[k + 1..];
      match op
      case Resolve => ResolveHandler(how.error, how.endpoints);
      case Connect(endpoints, it, chain) => ConnectHandler(how.error, endpoints, it, chain);
      case HeaderRead => ReceiveSegmentationHeaderHandler(how.error, how.data);
      case BodyRead(_) => ReceiveSegmentationBodyHandler(how.error, how.data);
      case Write(_) => WriteHandler(how.error);
    }

    method Dispatch(step: Step)
      requires Enabled(View(), step)
      modifies this
      ensures View() == Next(old(View()), step)
      ensures trace == old(trace) + ClientSteps.Said(old(View()), step, state)
    {
      ClientSteps.StepSays(View(), step);
      if step.Complete? {
        RunHandler(step.k, step.how);
      } else {
        ProcessUserRequest(step);
      }
    }

    /** Any order of user requests and completions the environment provides. */
    method Run(schedule: seq<Step>)
      requires Possible(View(), schedule)
      modifies this
      ensures View() == ClientProtocol.Run(old(View()), schedule)
    {
      var n := 0;
      while n < |schedule|
        invariant 0 <= n <= |schedule|
        invariant Possible(View(), schedule[n..])
        invariant ClientProtocol.Run(View(), schedule[n..]) == ClientProtocol.Run(old(View()), schedule)
      {
        assert schedule[n..][0] == schedule[n] && schedule[n..][1..] == schedule[n + 1..];
        Dispatch(schedule[n]);
        n := n + 1;
      }
    }
  }
}
