/** The message layers and their serialized form (include/msglayer.hpp, include/neartypes.hpp,
    src/common/msglayer.cpp, src/common/neartypes.cpp).

    `Wire` says what a layer looks like on the network. The `Fill...` and `Parse...` methods are
    the encoders and decoders, for either host byte order, and are proved against it.
 */
module MessageLayers {
  import opened Bytes

  const SEGMENTATION_ID: Byte := 0x80
  const SEGMENTATION_HEADER := 4
  const NEAR_ID: Byte := 0x41
  const NEAR_HEADER := 1 + 4 + 8 + 8

  datatype LayerError = InvalidHeader | UndersizedPacket | OversizedPacket

  /** A value, or the exception thrown instead of it. */
  datatype Result<+T> = Ok(value: T) | Thrown(error: LayerError)

  /** A window on a memory block that several layers may share. */
  datatype Slice = Slice(block: seq<Byte>, begin: nat, size: nat) {
    ghost predicate Valid() { begin + size <= |block| }

    function Bytes(): (b: seq<Byte>)
      requires Valid()
      ensures |b| == size && forall k :: 0 <= k < size ==> b[k] == block[begin + k]
    {
      block[begin..begin + size]
    }
  }

  type Uint4b = x: int | 0 <= x < 0x1_0000_0000
  type Uint8b = x: int | 0 <= x < 0x1_0000_0000_0000_0000

  datatype Message = Message(id: Uint4b, recipient: Uint8b, sender: Uint8b, text: seq<Byte>)

  datatype Layer =
    | SerializedData(data: Slice)
    | StringwrapLayer(text: seq<Byte>)
    | NearUserMessage(message: Message)
    | SegmentationLayer(inner: Layer)
  {
    ghost predicate Valid() {
      match this
      case SerializedData(data) => data.Valid()
      case SegmentationLayer(inner) => inner.Valid()
      case _ => true
    }

    function Size(): nat {
      match this
      case SerializedData(data) => data.size
      case StringwrapLayer(text) => |text|
      case NearUserMessage(message) => NEAR_HEADER + |message.text|
      case SegmentationLayer(inner) => inner.Size() + SEGMENTATION_HEADER
    }
  }

  // ---------- the wire format ----------

  /** The two size bytes of a packet: the size is cast to 16 bits. */
  function SizeField(size: nat): (b: seq<Byte>)
    ensures |b| == 2
  {
    Little(size % 0x1_0000, 2)
  }

  function FieldSize(b: seq<Byte>): nat
    requires |b| == 2
  {
    Value(b)
  }

  lemma Ranges()
    ensures Range(2) == 0x1_0000 && Range(4) == 0x1_0000_0000 && Range(8) == 0x1_0000_0000_0000_0000
  {
    assert Range(3) == 0x100 * Range(2) && Range(5) == 0x100 * Range(4);
    assert Range(6) == 0x100 * Range(5) && Range(7) == 0x100 * Range(6);
  }

  lemma FieldOfSize(size: nat)
    ensures FieldSize(SizeField(size)) == size % 0x1_0000
  {
    Ranges();
    ValueOfLittle(size % 0x1_0000, 2);
  }

  lemma SizeOfField(b: seq<Byte>)
    requires |b| == 2
    ensures FieldSize(b) < 0x1_0000 && SizeField(FieldSize(b)) == b
  {
    Ranges();
    ValueInRange(b);
    LittleOfValue(b);
  }

  function PacketHeader(size: nat): (h: seq<Byte>)
    ensures |h| == SEGMENTATION_HEADER
  {
    [SEGMENTATION_ID] + SizeField(size) + [0]
  }

  function MessageWire(m: Message): (b: seq<Byte>)
    ensures |b| == NEAR_HEADER + |m.text|
  {
    [NEAR_ID] + Little(m.id, 4) + Little(m.recipient, 8) + Little(m.sender, 8) + m.text
  }

  function Packet(payload: seq<Byte>): (b: seq<Byte>)
    ensures |b| == SEGMENTATION_HEADER + |payload|
  {
    PacketHeader(|payload| + SEGMENTATION_HEADER) + payload
  }

  /** The bytes of a layer on the network. They do not depend on the host. */
  function Wire(l: Layer): (b: seq<Byte>)
    requires l.Valid()
    ensures |b| == l.Size()
  {
    match l
    case SerializedData(data) => data.Bytes()
    case StringwrapLayer(text) => text
    case NearUserMessage(message) => MessageWire(message)
    case SegmentationLayer(inner) => Packet(Wire(inner))
  }

  // ---------- encoders ----------

  /** One `writebytes` of an encoder that has already written `done` from position `at` on. */
  method Append(buffer: array<Byte>, it: nat, image: seq<Byte>,
                ghost start: seq<Byte>, ghost at: nat, ghost done: seq<Byte>) returns (next: nat)
    requires it == at + |done| && it + |image| <= buffer.Length && |start| == buffer.Length
    requires buffer[..] == Spliced(start, at, done)
    modifies buffer
    ensures next == it + |image|
    ensures buffer[..] == Spliced(start, at, done + image)
  {
    next := WriteBytes(buffer, it, image);
    SplicedTwice(start, at, done, image);
  }

  /** `UniqueUserID::fillSerialized`. */
  method FillUserId(host: Host, id: Uint8b, buffer: array<Byte>, it: nat,
                    ghost start: seq<Byte>, ghost at: nat, ghost done: seq<Byte>) returns (next: nat)
    requires it == at + |done| && it + 8 <= buffer.Length && |start| == buffer.Length
    requires buffer[..] == Spliced(start, at, done)
    modifies buffer
    ensures next == it + 8
    ensures buffer[..] == Spliced(start, at, done + Little(id, 8))
  {
    Ranges();
    WrittenIsLittleEndian(host, id, 8);
    next := Append(buffer, it, Memory(host, ToNetbo(host, id, 8), 8), start, at, done);
  }

  /** `StringwrapLayer::fillSerialized`: one `writebytes` per character; a character is one byte. */
  method FillString(text: seq<Byte>, buffer: array<Byte>, it: nat,
                    ghost start: seq<Byte>, ghost at: nat, ghost done: seq<Byte>) returns (next: nat)
    requires it == at + |done| && it + |text| <= buffer.Length && |start| == buffer.Length
    requires buffer[..] == Spliced(start, at, done)
    modifies buffer
    ensures next == it + |text|
    ensures buffer[..] == Spliced(start, at, done + text)
  {
    var in_it := 0;
    next := it;
    while in_it < |text|
      invariant 0 <= in_it <= |text| && next == it + in_it
      invariant buffer[..] == Spliced(start, at, done + text[..in_it])
    {
      next := Append(buffer, next, [text[in_it]], start, at, done + text[..in_it]);
      assert done + text[..in_it] + [text[in_it]] == done + text[..in_it + 1];
      in_it := in_it + 1;
    }
    assert text[..in_it] == text;
  }

  /** `NearUserMessage::fillSerialized`. */
  method FillMessage(host: Host, m: Message, buffer: array<Byte>, it: nat,
                     ghost start: seq<Byte>, ghost at: nat, ghost done: seq<Byte>) returns (next: nat)
    requires it == at + |done| && it + NEAR_HEADER + |m.text| <= buffer.Length && |start| == buffer.Length
    requires buffer[..] == Spliced(start, at, done)
    modifies buffer
    ensures next == it + NEAR_HEADER + |m.text|
    ensures buffer[..] == Spliced(start, at, done + MessageWire(m))
  {
    ghost var a := done + [NEAR_ID];
    ghost var b := a + Little(m.id, 4);
    ghost var c := b + Little(m.recipient, 8);
    ghost var d := c + Little(m.sender, 8);
    assert d + m.text == done + MessageWire(m);
    next := Append(buffer, it, [NEAR_ID], start, at, done);
    Ranges();
    WrittenIsLittleEndian(host, m.id, 4);
    next := Append(buffer, next, Memory(host, ToNetbo(host, m.id, 4), 4), start, at, a);
    next := FillUserId(host, m.recipient, buffer, next, start, at, b);
    next := FillUserId(host, m.sender, buffer, next, start, at, c);
    next := FillString(m.text, buffer, next, start, at, d);
  }

  /** The header part of `SegmentationLayer::fillSerialized`. */
  method FillHeader(host: Host, size: nat, buffer: array<Byte>, it: nat,
                    ghost start: seq<Byte>, ghost at: nat, ghost done: seq<Byte>) returns (next: nat)
    requires it == at + |done| && it + SEGMENTATION_HEADER <= buffer.Length && |start| == buffer.Length
    requires buffer[..] == Spliced(start, at, done)
    modifies buffer
    ensures next == it + SEGMENTATION_HEADER
    ensures buffer[..] == Spliced(start, at, done + PacketHeader(size))
  {
    ghost var a := done + [SEGMENTATION_ID];
    ghost var b := a + SizeField(size);
    assert b + [0] == done + PacketHeader(size);
    next := Append(buffer, it, [SEGMENTATION_ID], start, at, done);
    var packetsize := size % 0x1_0000;
    Ranges();
    WrittenIsLittleEndian(host, packetsize, 2);
    next := Append(buffer, next, Memory(host, ToNetbo(host, packetsize, 2), 2), start, at, a);
    next := Append(buffer, next, [0], start, at, b);
  }

  method FillLayer(host: Host, l: Layer, buffer: array<Byte>, it: nat,
                   ghost start: seq<Byte>, ghost at: nat, ghost done: seq<Byte>) returns (next: nat)
    requires l.Valid()
    requires it == at + |done| && it + l.Size() <= buffer.Length && |start| == buffer.Length
    requires buffer[..] == Spliced(start, at, done)
    modifies buffer
    ensures next == it + l.Size()
    ensures buffer[..] == Spliced(start, at, done + Wire(l))
    decreases l
  {
    match l
    case SerializedData(data) =>
      next := Append(buffer, it, data.block[data.begin..data.begin + data.size], start, at, done);
    case StringwrapLayer(text) =>
      next := FillString(text, buffer, it, start, at, done);
    case NearUserMessage(message) =>
      next := FillMessage(host, message, buffer, it, start, at, done);
    case SegmentationLayer(inner) =>
      ghost var header := PacketHeader(inner.Size() + SEGMENTATION_HEADER);
      assert done + header + Wire(inner) == done + Wire(l);
      next := FillHeader(host, inner.Size() + SEGMENTATION_HEADER, buffer, it, start, at, done);
      next := FillLayer(host, inner, buffer, next, start, at, done + header);
  }

  /** `fillSerialized` of every layer: exactly `Size()` bytes change, and the position
      returned lies behind them. */
  method FillSerialized(host: Host, l: Layer, buffer: array<Byte>, it: nat) returns (next: nat)
    requires l.Valid()
    requires it + l.Size() <= buffer.Length
    modifies buffer
    ensures next == it + l.Size()
    ensures buffer[..] == Spliced(old(buffer[..]), it, Wire(l))
    ensures buffer[it..it + l.Size()] == Wire(l)
    ensures forall k :: 0 <= k < buffer.Length && !(it <= k < it + l.Size()) ==> buffer[k] == old(buffer[k])
  {
    SplicedNothing(buffer[..], it);
    next := FillLayer(host, l, buffer, it, buffer[..], it, []);
    assert [] + Wire(l) == Wire(l);
    SplicedOutside(old(buffer[..]), it, Wire(l));
    forall k | 0 <= k < buffer.Length && !(it <= k < it + l.Size())
      ensures buffer[k] == old(buffer[k])
    {
      assert buffer[..][k] == old(buffer[..])[k];
    }
  }

  /** A buffer of `Size()` bytes filled with the layer, as every sender prepares it. */
  method Serialize(host: Host, l: Layer) returns (bytes: seq<Byte>)
    requires l.Valid()
    ensures bytes == Wire(l)
  {
    var data := new Byte[l.Size()];
    var _ := FillSerialized(host, l, data, 0);
    bytes := data[..];
  }

  // ---------- decoders ----------

  /** What the first four bytes of a packet mean: the size they announce, or an invalid header. */
  function HeaderSize(h: seq<Byte>): Result<nat>
    requires |h| == SEGMENTATION_HEADER
  {
    if h[0] != SEGMENTATION_ID || h[3] != 0 then Thrown(InvalidHeader) else Ok(FieldSize(h[1..3]))
  }

  /** `SegmentationLayerBase::decodeHeader`. */
  method DecodeHeader(host: Host, headerbuf: seq<Byte>) returns (r: Result<nat>)
    requires |headerbuf| == SEGMENTATION_HEADER
    ensures r == HeaderSize(headerbuf)
  {
    if headerbuf[0] != SEGMENTATION_ID {
      return Thrown(InvalidHeader);
    }
    var image, _ := ReadBytes(headerbuf, 1, 2);
    ReadIsLittleEndian(host, image);
    var packetsize := ToHostbo(host, Loaded(host, image), 2);
    if headerbuf[3] != 0 {
      return Thrown(InvalidHeader);
    }
    return Ok(packetsize);
  }

  function Field4(b: seq<Byte>): Uint4b
    requires |b| == 4
  {
    Ranges();
    ValueInRange(b);
    Value(b)
  }

  function Field8(b: seq<Byte>): Uint8b
    requires |b| == 8
  {
    Ranges();
    ValueInRange(b);
    Value(b)
  }

  /** What a payload means as a user message. */
  function MessageOf(b: seq<Byte>): Result<Message> {
    if |b| < NEAR_HEADER then Thrown(UndersizedPacket)
    else if b[0] != NEAR_ID then Thrown(InvalidHeader)
    else Ok(Message(Field4(b[1..5]), Field8(b[5..13]), Field8(b[13..21]), b[21..]))
  }

  /** `StringwrapLayer(const SerializedData&)`: with one-byte characters every size is aligned. */
  method ParseString(data: Slice) returns (text: seq<Byte>)
    requires data.Valid()
    ensures text == data.Bytes()
  {
    var it := data.begin;
    text := [];
    while it < data.begin + data.size
      invariant data.begin <= it <= data.begin + data.size
      invariant text == data.block[data.begin..it]
    {
      var tmpval;
      tmpval, it := ReadBytes(data.block, it, 1);
      text := text + tmpval;
    }
  }

  method ParseUserId(host: Host, block: seq<Byte>, it: nat) returns (id: Uint8b)
    requires it + 8 <= |block|
    ensures id == Field8(block[it..it + 8])
  {
    var image, _ := ReadBytes(block, it, 8);
    ReadIsLittleEndian(host, image);
    Ranges();
    ValueInRange(image);
    id := ToHostbo(host, Loaded(host, image), 8);
  }

  /** `NearUserMessage(const SerializedData&)`. */
  method ParseMessage(host: Host, data: Slice) returns (r: Result<Message>)
    requires data.Valid()
    ensures r == MessageOf(data.Bytes())
  {
    var in_it := data.begin;
    if data.size < NEAR_HEADER {
      return Thrown(UndersizedPacket);
    }
    var layer := data.block[in_it];
    in_it := in_it + 1;
    if layer != NEAR_ID {
      return Thrown(InvalidHeader);
    }
    var image;
    image, in_it := ReadBytes(data.block, in_it, 4);
    ReadIsLittleEndian(host, image);
    Ranges();
    ValueInRange(image);
    var id := ToHostbo(host, Loaded(host, image), 4);
    var recipient := ParseUserId(host, data.block, in_it);
    in_it := in_it + 8;
    var sender := ParseUserId(host, data.block, in_it);
    in_it := in_it + 8;
    var text := ParseString(Slice(data.block, in_it, data.size - NEAR_HEADER));
    SliceFields(data);
    return Ok(Message(id, recipient, sender, text));
  }

  lemma SliceFields(data: Slice)
    requires data.Valid() && data.size >= NEAR_HEADER
    ensures var b, k := data.Bytes(), data.begin;
            b[1..5] == data.block[k + 1..k + 5] && b[5..13] == data.block[k + 5..k + 13] &&
            b[13..21] == data.block[k + 13..k + 21] &&
            b[21..] == Slice(data.block, k + 21, data.size - NEAR_HEADER).Bytes()
  {}

  // ---------- encoding and decoding are inverse ----------

  lemma MessageFields(m: Message)
    ensures var b := MessageWire(m);
            b[0] == NEAR_ID && b[1..5] == Little(m.id, 4) && b[5..13] == Little(m.recipient, 8) &&
            b[13..21] == Little(m.sender, 8) && b[21..] == m.text
  {}

  /** A serialized user message parses back to itself. */
  lemma MessageRoundTrip(m: Message)
    ensures MessageOf(MessageWire(m)) == Ok(m)
  {
    MessageFields(m);
    Ranges();
    ValueOfLittle(m.id, 4);
    ValueOfLittle(m.recipient, 8);
    ValueOfLittle(m.sender, 8);
  }

  /** A payload parses exactly when it is the serialized form of a message, and then of one only. */
  lemma MessageReencodes(b: seq<Byte>, m: Message)
    ensures MessageOf(b) == Ok(m) <==> b == MessageWire(m)
  {
    if MessageOf(b) == Ok(m) {
      LittleOfValue(b[1..5]);
      LittleOfValue(b[5..13]);
      LittleOfValue(b[13..21]);
      assert b == [b[0]] + b[1..5] + b[5..13] + b[13..21] + b[21..];
    }
    if b == MessageWire(m) {
      MessageRoundTrip(m);
    }
  }

  lemma HeaderFields(size: nat)
    ensures var h := PacketHeader(size);
            h[0] == SEGMENTATION_ID && h[1..3] == SizeField(size) && h[3] == 0
  {}

  /** The header written for a packet announces its size modulo 2^16. */
  lemma HeaderRoundTrip(size: nat)
    ensures HeaderSize(PacketHeader(size)) == Ok(size % 0x1_0000)
  {
    HeaderFields(size);
    FieldOfSize(size);
  }

  lemma FourBytes<T>(h: seq<T>)
    requires |h| == 4
    ensures h == [h[0]] + h[1..3] + [h[3]]
  {}

  lemma HeaderDetermined(h: seq<Byte>)
    requires |h| == SEGMENTATION_HEADER && HeaderSize(h).Ok?
    ensures h == PacketHeader(HeaderSize(h).value)
  {
    FourBytes(h);
    SizeOfField(h[1..3]);
  }

  /** A header decodes to a size exactly when it is the header written for that size. */
  lemma HeaderReencodes(h: seq<Byte>, size: nat)
    requires |h| == SEGMENTATION_HEADER && size < 0x1_0000
    ensures HeaderSize(h) == Ok(size) <==> h == PacketHeader(size)
  {
    if HeaderSize(h) == Ok(size) {
      HeaderDetermined(h);
    }
    if h == PacketHeader(size) {
      HeaderRoundTrip(size);
    }
  }

  // ---------- the layout, byte by byte ----------

  /** The numbers of the wire format of a message: 0x41, then an id of four bytes, two user ids of eight
      bytes each, least significant byte first, and the text. */
  lemma MessageLayout(m: Message)
    ensures var b := MessageWire(m);
            |b| == 21 + |m.text| && b[0] == 0x41 && b[21..] == m.text &&
            (forall k :: 0 <= k < 4 ==> b[1 + k] == m.id / Range(k) % 0x100) &&
            (forall k :: 0 <= k < 8 ==> b[5 + k] == m.recipient / Range(k) % 0x100) &&
            (forall k :: 0 <= k < 8 ==> b[13 + k] == m.sender / Range(k) % 0x100)
  {
    var b := MessageWire(m);
    MessageFields(m);
    forall k | 0 <= k < 4 ensures b[1 + k] == m.id / Range(k) % 0x100 {
      LittleAt(m.id, 4, k);
      assert b[1 + k] == b[1..5][k];
    }
    forall k | 0 <= k < 8 ensures b[5 + k] == m.recipient / Range(k) % 0x100 {
      LittleAt(m.recipient, 8, k);
      assert b[5 + k] == b[5..13][k];
    }
    forall k | 0 <= k < 8 ensures b[13 + k] == m.sender / Range(k) % 0x100 {
      LittleAt(m.sender, 8, k);
      assert b[13 + k] == b[13..21][k];
    }
  }

  /** The numbers of the wire format of a packet: 0x80, the low and the high byte of its whole size, 0, and
      the payload. */
  lemma PacketLayout(payload: seq<Byte>)
    ensures var p, size := Packet(payload), |payload| + 4;
            |p| == size && p[0] == 0x80 && p[1] == size % 0x100 && p[2] == size / 0x100 % 0x100 && p[3] == 0 &&
            p[4..] == payload
  {
    var size := |payload| + 4;
    HeaderFields(size);
    FieldBytes(size);
    assert Packet(payload)[1..3] == PacketHeader(size)[1..3];
  }

  lemma FieldBytes(size: nat)
    ensures SizeField(size)[0] == size % 0x100 && SizeField(size)[1] == size / 0x100 % 0x100
  {
    var low := size % 0x1_0000;
    assert Little(low, 2)[1..] == Little(low / 0x100, 1);
    assert size == 0x1_0000 * (size / 0x1_0000) + low;
  }

  /** What four bytes are decoded to, in numbers. */
  lemma HeaderDecodes(a: Byte, b: Byte, c: Byte, d: Byte)
    ensures HeaderSize([a, b, c, d]) == if a == 0x80 && d == 0 then Ok(b + 0x100 * c) else Thrown(InvalidHeader)
  {
    WireOrder(b, c, 0, 0);
    assert [a, b, c, d][1..3] == [b, c];
  }

  /** Which payloads are refused, and as what: too short before wrongly marked. */
  lemma MessageErrors(b: seq<Byte>)
    ensures MessageOf(b) == Thrown(UndersizedPacket) <==> |b| < 21
    ensures MessageOf(b) == Thrown(InvalidHeader) <==> |b| >= 21 && b[0] != 0x41
    ensures MessageOf(b).Ok? <==> |b| >= 21 && b[0] == 0x41
  {}
}
