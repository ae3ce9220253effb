/** One connection of the service node (src/servnode/connected-client.cpp): its two receive handlers, which
    find their parent through a weak reference, and its send handler.
 */
module ConnectedClients {
  import opened Bytes
  import opened MessageLayers
  import opened Framing

  /** The buffer that the outstanding read fills. */
  datatype Reading = IntoHeader | IntoBody | Nothing

  class ConnectedClient {
    const host: Host
    const header_buffer: array<Byte>
    var body_buf: array<Byte>
    var reading: Reading
    var filled: nat
    var arrived: seq<Byte>
    var socket_open: bool
    var owned: bool

    // The `receivedMessage` and `disconnected` callbacks, and whether `std::length_error` has left a handler.
    var received: seq<seq<Byte>>
    var disconnects: nat
    var escaped: bool
    var writes: seq<seq<Byte>>

    ghost predicate Valid()
      reads this
    {
      && header_buffer.Length == SEGMENTATION_HEADER && body_buf != header_buffer
      && filled <= Wanted() && (escaped ==> reading == Nothing)
    }

    function Wanted(): nat
      reads this
    {
      match reading
      case IntoHeader => header_buffer.Length
      case IntoBody => body_buf.Length
      case Nothing => 0
    }

    /** What has been read into the buffer of the outstanding read. */
    ghost function Read(): seq<Byte>
      requires Valid()
      reads this, header_buffer, body_buf
    {
      match reading
      case IntoHeader => header_buffer[..filled]
      case IntoBody => body_buf[..filled]
      case Nothing => []
    }

    /** No read is outstanding after an exception, or else after a disconnection. */
    ghost function PhaseNow(): Phase
      reads this
    {
      match reading
      case IntoHeader => ReadingHeader
      case IntoBody => ReadingBody(body_buf.Length)
      case Nothing => Stopped(if escaped then LengthErrorThrown else Rejected)
    }

    /** The receive loop that this object is running. */
    ghost function View(): Link
      requires Valid()
      reads this, header_buffer, body_buf
    {
      Link(PhaseNow(), Read() + arrived, received)
    }

    /** `makeInstance`. */
    constructor (host: Host)
      ensures Valid() && fresh(header_buffer) && fresh(body_buf) && View() == FRESH
      ensures owned && socket_open && Told() && writes == []
    {
      this.host := host;
      header_buffer := new Byte[SEGMENTATION_HEADER];
      body_buf := new Byte[0];
      arrived, socket_open, owned, received, disconnects, escaped, writes := [], true, true, [], 0, false, [];
      reading, filled := IntoHeader, 0;
    }

    method StartReceive()
      modifies this`reading, this`filled
      ensures reading == IntoHeader && filled == 0
    {
      reading, filled := IntoHeader, 0;
    }

    method Shutdown()
      modifies this`socket_open
      ensures !socket_open
    {
      socket_open := false;
    }

    method Disconnect()
      modifies this`socket_open, this`disconnects
      ensures !socket_open && disconnects == old(disconnects) + 1
    {
      Shutdown();
      disconnects := disconnects + 1;
    }

    method SendPacket(inner: Layer)
      requires inner.Valid()
      modifies this`writes
      ensures writes == old(writes) + [Packet(Wire(inner))]
    {
      var data := Serialize(host, SegmentationLayer(inner));
      writes := writes + [data];
    }

    /** The handler of the k-th outstanding write. */
    method SendHandler(k: nat, error: bool, transferred: nat)
      requires k < |writes|
      modifies this`writes, this`socket_open, this`disconnects
      ensures writes == old(writes[..k] + writes[k + 1..])
      ensures var lost := owned && (error || transferred != |old(writes)[k]|);
              disconnects == old(disconnects) + (if lost then 1 else 0) && socket_open == (old(socket_open) && !lost)
    {
      var size := |writes[k]|;
      writes := writes[..k] + writes[k + 1..];
      if owned && (error || transferred != size) {
        Disconnect();
      }
    }

    /** What happens when a handler runs that has no parent any more, or whose read has failed: nothing is
        handed on and no read is started; the parent is told of the failure. */
    ghost predicate Over(lost: bool, wasOpen: bool, before: nat, got: seq<seq<Byte>>)
      reads this
    {
      && reading == Nothing && filled == 0 && received == got
      && disconnects == before + (if lost then 1 else 0) && socket_open == (wasOpen && !lost)
    }

    method ReceiveHeaderHandler(error: bool)
      requires Valid() && reading == IntoHeader && (!error ==> filled == Wanted())
      modifies this
      ensures Valid() && arrived == old(arrived) && owned == old(owned) && writes == old(writes)
      ensures body_buf == old(body_buf) || fresh(body_buf)
      ensures error || !owned ==>
                Over(owned, old(socket_open), old(disconnects), old(received)) && !escaped
      ensures !error && owned ==>
                View() == old(View()).Complete() && Ends()
    {
      reading, filled := Nothing, 0;
      if !owned {
        return;
      }
      if error {
        Disconnect();
        return;
      }
      ghost var was := old(View());
      assert was.buffered[..SEGMENTATION_HEADER] == header_buffer[..];
      assert was.buffered[SEGMENTATION_HEADER..] == arrived;
      var header := DecodeHeader(host, header_buffer[..]);
      if header.Thrown? || header.value > MAX_PACKETSIZE {
        Disconnect();
      } else if BodyLength(header.value) > MAX_VECTOR {
        escaped := true;
      } else {
        body_buf := new Byte[BodyLength(header.value)];
        reading := IntoBody;
      }
    }

    /** The parent of a connection that has not failed knows how it stands. */
    ghost predicate Told()
      reads this
    {
      && escaped == (PhaseNow() == Stopped(LengthErrorThrown))
      && disconnects == if PhaseNow() == Stopped(Rejected) then 1 else 0
    }

    /** How a successful read changes what the parent is told. */
    twostate predicate Ends()
      reads this
    {
      && escaped == (PhaseNow() == Stopped(LengthErrorThrown))
      && disconnects == old(disconnects) + (if PhaseNow() == Stopped(Rejected) then 1 else 0)
      && socket_open == (old(socket_open) && PhaseNow() != Stopped(Rejected))
    }

    method ReceiveBodyHandler(error: bool)
      requires Valid() && reading == IntoBody && (!error ==> filled == Wanted())
      modifies this
      ensures Valid() && arrived == old(arrived) && owned == old(owned) && writes == old(writes)
      ensures body_buf == old(body_buf) || fresh(body_buf)
      ensures error || !owned ==>
                Over(owned, old(socket_open), old(disconnects), old(received)) && !escaped
      ensures !error && owned ==>
                View() == old(View()).Complete() && Ends()
    {
      reading, filled := Nothing, 0;
      if !owned {
        return;
      }
      if error {
        Disconnect();
        return;
      }
      ghost var was := old(View());
      assert was.buffered[..body_buf.Length] == body_buf[..];
      assert was.buffered[body_buf.Length..] == arrived;
      received := received + [body_buf[..]];
      StartReceive();
    }

    // ---------- the event loop ----------

    /** Bytes that have arrived go to the buffer of the outstanding read, as far as they fit. */
    method Transfer()
      requires Valid() && reading != Nothing
      modifies this`filled, this`arrived, header_buffer, body_buf
      ensures Valid() && View() == old(View())
      ensures filled == Wanted() || arrived == []
    {
      var buffer := if reading == IntoHeader then header_buffer else body_buf;
      var n := if |arrived| < buffer.Length - filled then |arrived| else buffer.Length - filled;
      ghost var before, taken := buffer[..], arrived[..n];
      var next := WriteBytes(buffer, filled, arrived[..n]);
      SplicedPrefix(before, filled, taken);
      assert before[..filled] + taken + arrived[n..] == before[..filled] + arrived;
      arrived := arrived[n..];
      filled := next;
    }

    method RunReceiveHandler()
      requires Valid() && owned && reading != Nothing && filled == Wanted()
      modifies this
      ensures Valid() && owned && arrived == old(arrived) && writes == old(writes)
      ensures body_buf == old(body_buf) || fresh(body_buf)
      ensures View() == old(View()).Complete() && Ends()
    {
      if reading == IntoHeader {
        ReceiveHeaderHandler(false);
      } else {
        ReceiveBodyHandler(false);
      }
    }

    /** A piece of the stream arrives: bytes are read and handlers run until there is nothing to do. */
    method Arrive(chunk: seq<Byte>)
      requires Valid() && owned
      modifies this, header_buffer, body_buf
      ensures Valid() && owned && writes == old(writes)
      ensures body_buf == old(body_buf) || fresh(body_buf)
      ensures View() == old(View()).Feed(chunk)
      ensures old(reading) != Nothing ==> Ends()
      ensures old(reading) == Nothing ==> reading == Nothing && unchanged(`disconnects, `socket_open, `escaped)
    {
      assert Read() + arrived + chunk == Read() + (arrived + chunk);
      arrived := arrived + chunk;
      ghost var was := View();
      while reading != Nothing
        invariant Valid() && owned && writes == old(writes)
        invariant body_buf == old(body_buf) || fresh(body_buf)
        invariant View().Pump() == was.Pump()
        invariant old(reading) != Nothing ==> Ends()
        invariant old(reading) == Nothing ==> reading == Nothing && unchanged(`disconnects, `socket_open, `escaped)
        decreases |View().buffered|, if reading == IntoBody then 1 else 0
      {
        Transfer();
        if filled < Wanted() {
          break;
        }
        RunReceiveHandler();
      }
    }
  }

  lemma SplicedPrefix(s: seq<Byte>, at: nat, image: seq<Byte>)
    requires at + |image| <= |s|
    ensures Spliced(s, at, image)[..at + |image|] == s[..at] + image
  {}

  /** All pieces of a stream arrive, one after the other. */
  method ArriveAll(client: ConnectedClient, chunks: seq<seq<Byte>>)
    requires client.Valid() && client.owned && client.Told()
    modifies client, client.header_buffer, client.body_buf
    ensures client.Valid() && client.Told()
    ensures client.View() == FeedAll(old(client.View()), chunks)
  {
    var n := 0;
    while n < |chunks|
      invariant 0 <= n <= |chunks| && client.Valid() && client.owned && client.Told()
      invariant client.body_buf == old(client.body_buf) || fresh(client.body_buf)
      invariant FeedAll(client.View(), chunks[n..]) == FeedAll(old(client.View()), chunks)
    {
      assert chunks[n..][0] == chunks[n] && chunks[n..][1..] == chunks[n + 1..];
      client.Arrive(chunks[n]);
      n := n + 1;
    }
  }

  /** A whole connection: whatever pieces the stream arrives in, the parent is told of exactly its payloads,
      and of a disconnection exactly when a header is refused. */
  method Receive(host: Host, chunks: seq<seq<Byte>>) returns (received: seq<seq<Byte>>, disconnects: nat, escaped: bool)
    ensures var d := Deliver(Joined(chunks));
            received == d.payloads &&
            disconnects == (if d.ending == Rejected then 1 else 0) &&
            escaped == (d.ending == LengthErrorThrown)
  {
    var client := new ConnectedClient(host);
    ArriveAll(client, chunks);
    ChunkInvariance(chunks);
    DeliverSplits(Joined(chunks));
    return client.received, client.disconnects, client.escaped;
  }
}
