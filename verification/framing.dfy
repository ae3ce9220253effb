/** Cutting a byte stream into packets.

    `Deliver` says which payloads a byte stream holds. `Link` is the receive loop that every
    endpoint runs: read four bytes, judge them, read the body, hand it on, start again.
 */
module Framing {
  import opened Bytes
  import opened MessageLayers

  const MAX_PACKETSIZE := 0x8FFF

  // `header.packetsize - header_length` is computed in `size_t`; a vector of more than
  // MAX_VECTOR bytes cannot be allocated.
  const SIZE_T := 0x1_0000_0000_0000_0000
  const MAX_VECTOR := 0x7FFF_FFFF_FFFF_FFFF

  /** What a reader makes of a header: an error it handles, an allocation that throws
      `std::length_error`, or a body to read. */
  datatype Verdict = Reject | LengthError | Body(length: nat)

  function BodyLength(packetsize: nat): nat {
    (packetsize + SIZE_T - SEGMENTATION_HEADER) % SIZE_T
  }

  function Judge(h: seq<Byte>): Verdict
    requires |h| == SEGMENTATION_HEADER
  {
    match HeaderSize(h)
    case Thrown(_) => Reject
    case Ok(size) =>
      if size > MAX_PACKETSIZE then Reject
      else if BodyLength(size) > MAX_VECTOR then LengthError
      else Body(BodyLength(size))
  }

  lemma BodyLengthWraps(packetsize: nat)
    requires packetsize < 0x1_0000
    ensures SEGMENTATION_HEADER <= packetsize ==> BodyLength(packetsize) == packetsize - SEGMENTATION_HEADER
    ensures packetsize < SEGMENTATION_HEADER ==> BodyLength(packetsize) > MAX_VECTOR
  {}

  lemma JudgeBySize(h: seq<Byte>)
    requires |h| == SEGMENTATION_HEADER && HeaderSize(h).Ok?
    ensures var size := HeaderSize(h).value;
            Judge(h) == if size > MAX_PACKETSIZE then Reject
                        else if size < SEGMENTATION_HEADER then LengthError
                        else Body(size - SEGMENTATION_HEADER)
  {
    SizeOfField(h[1..3]);
    BodyLengthWraps(HeaderSize(h).value);
  }

  /** Exactly one header announces a body of a given length, and only up to the limit. */
  lemma JudgeByHeader(h: seq<Byte>, n: nat)
    requires |h| == SEGMENTATION_HEADER
    ensures Judge(h) == Body(n) <==>
            n + SEGMENTATION_HEADER <= MAX_PACKETSIZE && h == PacketHeader(n + SEGMENTATION_HEADER)
  {
    if HeaderSize(h).Ok? {
      JudgeBySize(h);
      HeaderDetermined(h);
    }
    if n + SEGMENTATION_HEADER <= MAX_PACKETSIZE && h == PacketHeader(n + SEGMENTATION_HEADER) {
      HeaderRoundTrip(n + SEGMENTATION_HEADER);
    }
  }

  /** The allocation throws exactly on the valid headers whose size is below the header length. */
  lemma LengthErrorExact(h: seq<Byte>)
    requires |h| == SEGMENTATION_HEADER
    ensures Judge(h) == LengthError <==> HeaderSize(h).Ok? && HeaderSize(h).value < SEGMENTATION_HEADER
  {
    if HeaderSize(h).Ok? {
      JudgeBySize(h);
    }
  }

  /** What any four bytes are taken for, in numbers. */
  lemma JudgeTable(a: Byte, b: Byte, c: Byte, d: Byte)
    ensures Judge([a, b, c, d]) ==
            var size: nat := b as nat + 0x100 * c as nat;
            if a != 0x80 || d != 0 || size > 0x8FFF then Reject
            else if size < 4 then LengthError
            else Body(size - 4)
  {
    HeaderDecodes(a, b, c, d);
    if HeaderSize([a, b, c, d]).Ok? {
      JudgeBySize([a, b, c, d]);
    }
  }

  /** A body of n bytes is announced by these four bytes and no others, for n up to 0x8FFF - 4. */
  lemma JudgeExact(h: seq<Byte>, n: nat)
    requires |h| == 4
    ensures Judge(h) == Body(n) <==>
            n <= 0x8FFF - 4 && h == [0x80, (n + 4) % 0x100, (n + 4) / 0x100, 0]
  {
    assert h == [h[0], h[1], h[2], h[3]];
    JudgeTable(h[0], h[1], h[2], h[3]);
  }

  // ---------- the payloads of a stream ----------

  datatype Ending = Incomplete | Rejected | LengthErrorThrown

  datatype Delivery = Delivery(payloads: seq<seq<Byte>>, ending: Ending, rest: seq<Byte>)

  /** The length of the complete packet at the front of the stream, if there is one. */
  function FirstPacket(stream: seq<Byte>): (n: nat)
    ensures n <= |stream| && (n > 0 ==> n >= SEGMENTATION_HEADER)
  {
    if |stream| < SEGMENTATION_HEADER then 0
    else match Judge(stream[..SEGMENTATION_HEADER])
    case Body(n) => if |stream| < SEGMENTATION_HEADER + n then 0 else SEGMENTATION_HEADER + n
    case _ => 0
  }

  function EndingOf(rest: seq<Byte>): Ending {
    if |rest| < SEGMENTATION_HEADER then Incomplete
    else match Judge(rest[..SEGMENTATION_HEADER])
    case Reject => Rejected
    case LengthError => LengthErrorThrown
    case Body(_) => Incomplete
  }

  /** All packets before the first bad or incomplete one, and why it ends there. */
  function Deliver(stream: seq<Byte>): Delivery
    decreases |stream|
  {
    var n := FirstPacket(stream);
    if n == 0 then Delivery([], EndingOf(stream), stream)
    else
      var d := Deliver(stream[n..]);
      d.(payloads := [stream[SEGMENTATION_HEADER..n]] + d.payloads)
  }

  /** Why a stream ends, from the four bytes behind its last packet. */
  lemma EndingTable(rest: seq<Byte>)
    ensures EndingOf(rest) ==
            if |rest| < 4 then Incomplete
            else
              var size: nat := rest[1] as nat + 0x100 * rest[2] as nat;
              if rest[0] != 0x80 || rest[3] != 0 || size > 0x8FFF then Rejected
              else if size < 4 then LengthErrorThrown
              else Incomplete
  {
    if |rest| >= 4 {
      assert rest[..4] == [rest[0], rest[1], rest[2], rest[3]];
      JudgeTable(rest[0], rest[1], rest[2], rest[3]);
    }
  }

  predicate Fits(payload: seq<Byte>) { |payload| + SEGMENTATION_HEADER <= MAX_PACKETSIZE }

  ghost predicate AllFit(ps: seq<seq<Byte>>) { forall i :: 0 <= i < |ps| ==> Fits(ps[i]) }

  function Packets(ps: seq<seq<Byte>>): seq<Byte> {
    if ps == [] then [] else Packet(ps[0]) + Packets(ps[1..])
  }

  lemma FirstPacketOfPacket(p: seq<Byte>, tail: seq<Byte>)
    requires Fits(p)
    ensures var s := Packet(p) + tail; var n := FirstPacket(s);
            n == |Packet(p)| && s[SEGMENTATION_HEADER..n] == p && s[n..] == tail
  {
    var s := Packet(p) + tail;
    assert s[..SEGMENTATION_HEADER] == PacketHeader(|p| + SEGMENTATION_HEADER);
    JudgeByHeader(s[..SEGMENTATION_HEADER], |p|);
  }

  lemma FirstPacketIsPacket(s: seq<Byte>)
    requires FirstPacket(s) > 0
    ensures var n := FirstPacket(s); var p := s[SEGMENTATION_HEADER..n];
            Fits(p) && s == Packet(p) + s[n..]
  {
    var n := FirstPacket(s);
    JudgeByHeader(s[..SEGMENTATION_HEADER], n - SEGMENTATION_HEADER);
    assert s == s[..SEGMENTATION_HEADER] + s[SEGMENTATION_HEADER..n] + s[n..];
  }

  lemma PacketsCons(p: seq<Byte>, ps: seq<seq<Byte>>)
    ensures Packets([p] + ps) == Packet(p) + Packets(ps)
    ensures Fits(p) && AllFit(ps) ==> AllFit([p] + ps)
  {
    assert ([p] + ps)[1..] == ps;
  }

  lemma Associative<T>(a: seq<T>, b: seq<T>, c: seq<T>)
    ensures a + (b + c) == (a + b) + c
  {}

  /** What is delivered are packets of the stream in order, up to a rest that starts no packet. */
  lemma {:induction false} DeliverSplits(stream: seq<Byte>)
    ensures var d := Deliver(stream);
            stream == Packets(d.payloads) + d.rest && AllFit(d.payloads) &&
            FirstPacket(d.rest) == 0 && d.ending == EndingOf(d.rest)
    decreases |stream|
  {
    var n := FirstPacket(stream);
    if n > 0 {
      FirstPacketIsPacket(stream);
      DeliverSplits(stream[n..]);
      var p, e := stream[SEGMENTATION_HEADER..n], Deliver(stream[n..]);
      PacketsCons(p, e.payloads);
      Associative(Packet(p), Packets(e.payloads), e.rest);
    }
  }

  /** There is only one such splitting: the payload list of a stream is determined by its bytes. */
  lemma {:induction false} DeliverUnique(ps: seq<seq<Byte>>, rest: seq<Byte>)
    requires AllFit(ps) && FirstPacket(rest) == 0
    ensures Deliver(Packets(ps) + rest) == Delivery(ps, EndingOf(rest), rest)
  {
    if ps == [] {
      assert Packets(ps) + rest == rest;
    } else {
      var tail := Packets(ps[1..]) + rest;
      Associative(Packet(ps[0]), Packets(ps[1..]), rest);
      FirstPacketOfPacket(ps[0], tail);
      DeliverUnique(ps[1..], rest);
      assert [ps[0]] + ps[1..] == ps;
    }
  }

  /** A list of payloads survives framing exactly when each of them fits. */
  lemma FramingRoundTrip(ps: seq<seq<Byte>>)
    ensures Deliver(Packets(ps)) == Delivery(ps, Incomplete, []) <==> AllFit(ps)
    ensures AllFit(ps) <==> forall i :: 0 <= i < |ps| ==> |ps[i]| <= 0x8FFF - 4
  {
    assert Packets(ps) + [] == Packets(ps);
    if AllFit(ps) {
      DeliverUnique(ps, []);
    }
    DeliverSplits(Packets(ps));
  }

  lemma TakeThenCut<T>(s: seq<T>, k: nat, i: nat, j: nat)
    requires i <= j <= k <= |s|
    ensures s[..k][i..j] == s[i..j] && s[..k][j..] == s[j..][..k - j]
  {}

  /** More bytes only add payloads: what a prefix delivers stays, and no part of a payload is handed on. */
  lemma {:induction false} DeliverPrefix(stream: seq<Byte>, k: nat)
    requires k <= |stream|
    ensures Deliver(stream[..k]).payloads <= Deliver(stream).payloads
    decreases |stream|
  {
    var s := stream[..k];
    var n := FirstPacket(s);
    if n > 0 {
      TakeThenCut(stream, k, 0, SEGMENTATION_HEADER);
      TakeThenCut(stream, k, SEGMENTATION_HEADER, n);
      DeliverPrefix(stream[n..], k - n);
    }
  }

  /** On any prefix of well-formed packets a reader delivers a prefix of the payloads and waits for more. */
  lemma {:induction false} PrefixOfPackets(ps: seq<seq<Byte>>, k: nat)
    requires AllFit(ps) && k <= |Packets(ps)|
    ensures Deliver(Packets(ps)[..k]).payloads <= ps
    ensures Deliver(Packets(ps)[..k]).ending == Incomplete
    decreases |ps|
  {
    DeliverPrefix(Packets(ps), k);
    FramingRoundTrip(ps);
    if ps != [] {
      var whole, n := Packets(ps), |Packet(ps[0])|;
      FirstPacketOfPacket(ps[0], Packets(ps[1..]));
      if n <= k {
        TakeThenCut(whole, k, SEGMENTATION_HEADER, n);
        TakeThenCut(whole, k, 0, SEGMENTATION_HEADER);
        PrefixOfPackets(ps[1..], k - n);
      } else if SEGMENTATION_HEADER <= k {
        TakeThenCut(whole, k, 0, SEGMENTATION_HEADER);
      }
    }
  }

  // ---------- reading packet by packet ----------

  lemma PacketsSnoc(ps: seq<seq<Byte>>, p: seq<Byte>)
    ensures Packets(ps + [p]) == Packets(ps) + Packet(p)
    decreases |ps|
  {
    if ps == [] {
      assert ps + [p] == [p] && Packets([p]) == Packet(p) + Packets([p][1..]);
    } else {
      assert (ps + [p])[1..] == ps[1..] + [p];
      PacketsSnoc(ps[1..], p);
      Associative(Packet(ps[0]), Packets(ps[1..]), Packet(p));
    }
  }

  /** The bytes read are the packets of these payloads, and then `rest`. */
  ghost predicate Cut(ps: seq<seq<Byte>>, rest: seq<Byte>, got: seq<Byte>) {
    got == Packets(ps) + rest && AllFit(ps)
  }

  lemma CutHeader(ps: seq<seq<Byte>>, got: seq<Byte>, h: seq<Byte>)
    requires Cut(ps, [], got)
    ensures Cut(ps, h, got + h)
  {
    assert got == Packets(ps);
  }

  lemma CutBody(ps: seq<seq<Byte>>, got: seq<Byte>, h: seq<Byte>, body: seq<Byte>)
    requires Cut(ps, h, got) && |h| == SEGMENTATION_HEADER && Judge(h) == Body(|body|)
    ensures Cut(ps + [body], [], got + body)
  {
    JudgeByHeader(h, |body|);
    PacketsSnoc(ps, body);
    Associative(Packets(ps), h, body);
    assert got + body == Packets(ps + [body]) + [];
  }

  /** A body of no bytes may be announced and not yet handled. */
  function EmptyDue(rest: seq<Byte>): seq<seq<Byte>> {
    if |rest| == SEGMENTATION_HEADER && Judge(rest) == Body(0) then [[]] else []
  }

  lemma DeliverCut(ps: seq<seq<Byte>>, rest: seq<Byte>, got: seq<Byte>)
    requires Cut(ps, rest, got) && (rest == [] || |rest| == SEGMENTATION_HEADER)
    ensures Deliver(got).payloads == ps + EmptyDue(rest) && Deliver(got).ending == EndingOf(rest)
  {
    if EmptyDue(rest) == [] {
      assert rest != [] ==> rest[..SEGMENTATION_HEADER] == rest;
      DeliverUnique(ps, rest);
    } else {
      JudgeByHeader(rest, 0);
      assert rest == Packet([]) && rest[..SEGMENTATION_HEADER] == rest;
      PacketsSnoc(ps, []);
      DeliverUnique(ps + [[]], []);
      assert Packets(ps) + rest == Packets(ps + [[]]) + [];
    }
  }

  // ---------- the receive loop ----------

  datatype Phase = ReadingHeader | ReadingBody(length: nat) | Stopped(ending: Ending)

  /** One receiving endpoint: the outstanding read, the bytes that have arrived for it and
      after it, and the payloads handed on. */
  datatype Link = Link(phase: Phase, buffered: seq<Byte>, delivered: seq<seq<Byte>>) {

    function Wanted(): nat {
      match phase
      case ReadingHeader => SEGMENTATION_HEADER
      case ReadingBody(n) => n
      case Stopped(_) => 0
    }

    /** The outstanding read has its buffer full. */
    predicate Full() { !phase.Stopped? && Wanted() <= |buffered| }

    /** The completion handler of the outstanding read runs. */
    function Complete(): Link
      requires Full()
    {
      var data, left := buffered[..Wanted()], buffered[Wanted()..];
      match phase
      case ReadingHeader => Link(NextPhase(data), left, delivered)
      case ReadingBody(_) => Link(ReadingHeader, left, delivered + [data])
    }

    /** The handlers run until the outstanding read lacks bytes. */
    function Pump(): (l: Link)
      ensures !l.Full()
      decreases |buffered|, if phase.ReadingBody? then 1 else 0
    {
      if Full() then Complete().Pump() else this
    }

    /** A piece of the stream arrives. */
    function Feed(chunk: seq<Byte>): Link {
      this.(buffered := buffered + chunk).Pump()
    }
  }

  function NextPhase(h: seq<Byte>): Phase
    requires |h| == SEGMENTATION_HEADER
  {
    match Judge(h)
    case Body(n) => ReadingBody(n)
    case Reject => Stopped(Rejected)
    case LengthError => Stopped(LengthErrorThrown)
  }

  const FRESH := Link(ReadingHeader, [], [])

  function FeedAll(l: Link, chunks: seq<seq<Byte>>): Link
    decreases |chunks|
  {
    if chunks == [] then l else FeedAll(l.Feed(chunks[0]), chunks[1..])
  }

  function Joined(chunks: seq<seq<Byte>>): seq<Byte> {
    if chunks == [] then [] else chunks[0] + Joined(chunks[1..])
  }

  /** Bytes that arrive later do not change what the handlers do with the earlier ones. */
  lemma {:induction false} PumpThenFeed(l: Link, more: seq<Byte>)
    ensures l.Pump().Feed(more) == l.Feed(more)
    decreases |l.buffered|, if l.phase.ReadingBody? then 1 else 0
  {
    if l.Full() {
      var longer := l.(buffered := l.buffered + more);
      assert longer.buffered[..l.Wanted()] == l.buffered[..l.Wanted()];
      assert longer.buffered[l.Wanted()..] == l.buffered[l.Wanted()..] + more;
      assert longer.Complete() == l.Complete().(buffered := l.Complete().buffered + more);
      PumpThenFeed(l.Complete(), more);
    }
  }

  lemma {:induction false} FeedAllIsFeed(l: Link, chunks: seq<seq<Byte>>)
    requires !l.Full()
    ensures FeedAll(l, chunks) == l.Feed(Joined(chunks))
    decreases |chunks|
  {
    if chunks == [] {
      assert l.buffered + [] == l.buffered;
    } else {
      var tail := Joined(chunks[1..]);
      FeedAllIsFeed(l.Feed(chunks[0]), chunks[1..]);
      PumpThenFeed(l.(buffered := l.buffered + chunks[0]), tail);
      assert l.buffered + chunks[0] + tail == l.buffered + Joined(chunks);
    }
  }

  function PhaseAfter(rest: seq<Byte>): Phase {
    if |rest| < SEGMENTATION_HEADER then ReadingHeader else NextPhase(rest[..SEGMENTATION_HEADER])
  }

  lemma HeaderAndBody(l: Link)
    requires l.phase == ReadingHeader && FirstPacket(l.buffered) > 0
    ensures var n := FirstPacket(l.buffered);
            l.Full() && l.Complete().Full() &&
            l.Complete().Complete() ==
              Link(ReadingHeader, l.buffered[n..], l.delivered + [l.buffered[SEGMENTATION_HEADER..n]])
  {
    var n := FirstPacket(l.buffered);
    assert l.buffered[SEGMENTATION_HEADER..][..n - SEGMENTATION_HEADER] == l.buffered[SEGMENTATION_HEADER..n];
    assert l.buffered[SEGMENTATION_HEADER..][n - SEGMENTATION_HEADER..] == l.buffered[n..];
  }

  lemma {:induction false} PumpDelivers(l: Link)
    requires l.phase == ReadingHeader
    ensures l.Pump().delivered == l.delivered + Deliver(l.buffered).payloads
    ensures l.Pump().phase == PhaseAfter(Deliver(l.buffered).rest)
    decreases |l.buffered|
  {
    var n := FirstPacket(l.buffered);
    if n > 0 {
      HeaderAndBody(l);
      var after := l.Complete().Complete();
      PumpDelivers(after);
      Associative(l.delivered, [l.buffered[SEGMENTATION_HEADER..n]], Deliver(after.buffered).payloads);
    } else if l.Full() {
      var next := l.Complete();
      assert !next.Full();
    }
  }

  /** However the bytes are cut into arrivals, the loop hands on exactly the payloads of the whole stream. */
  lemma ChunkInvariance(chunks: seq<seq<Byte>>)
    ensures FeedAll(FRESH, chunks).delivered == Deliver(Joined(chunks)).payloads
    ensures FeedAll(FRESH, chunks).phase == PhaseAfter(Deliver(Joined(chunks)).rest)
  {
    FeedAllIsFeed(FRESH, chunks);
    assert [] + Joined(chunks) == Joined(chunks);
    PumpDelivers(Link(ReadingHeader, Joined(chunks), []));
  }
}
