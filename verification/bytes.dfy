/** Byte order and raw byte access (include/bytes.hpp).

    The wire order of nuke-ms is little endian on every platform. What a value looks like in memory
    depends on the host, and `ToNetbo`/`ToHostbo` are compiled in the form that belongs to that host.
    A value of width `w` is a number below 256^w.
 */
module Bytes {

  type Byte = x: int | 0 <= x < 0x100

  datatype Host = LittleEndianHost | BigEndianHost

  function Reversed<T>(s: seq<T>): seq<T> {
    seq(|s|, i requires 0 <= i < |s| => s[|s| - 1 - i])
  }

  lemma ReversedTwice<T>(s: seq<T>)
    ensures Reversed(Reversed(s)) == s
  {}

  // ---------- the bytes of a value, least significant first ----------

  ghost function Range(w: nat): (n: nat)
    ensures n > 0
  {
    if w == 0 then 1 else 0x100 * Range(w - 1)
  }

  function Little(x: nat, w: nat): (b: seq<Byte>)
    ensures |b| == w
  {
    if w == 0 then [] else [x % 0x100] + Little(x / 0x100, w - 1)
  }

  function Value(b: seq<Byte>): nat {
    if b == [] then 0 else b[0] + 0x100 * Value(b[1..])
  }

  lemma {:induction false} ValueInRange(b: seq<Byte>)
    ensures Value(b) < Range(|b|)
  {
    if b != [] {
      ValueInRange(b[1..]);
    }
  }

  lemma {:induction false} ValueOfLittle(x: nat, w: nat)
    requires x < Range(w)
    ensures Value(Little(x, w)) == x
  {
    if w > 0 {
      ValueOfLittle(x / 0x100, w - 1);
      assert Little(x, w)[1..] == Little(x / 0x100, w - 1);
    }
  }

  lemma {:induction false} LittleOfValue(b: seq<Byte>)
    ensures Little(Value(b), |b|) == b
  {
    if b != [] {
      LittleOfValue(b[1..]);
      assert Value(b) % 0x100 == b[0] && Value(b) / 0x100 == Value(b[1..]);
    }
  }

  lemma BigMultiple(d: int, t: int)
    requires d > 0 && t != 0
    ensures d * t >= d || d * t <= -d
  {}

  lemma QuotientUnique(x: nat, d: nat, q: nat, r: nat)
    requires r < d && x == d * q + r
    ensures x / d == q
  {
    var t := q - x / d;
    assert d * t == d * q - d * (x / d) == x % d - r;
    if t != 0 {
      BigMultiple(d, t);
    }
  }

  lemma ShiftTwice(x: nat, d: nat)
    requires d > 0
    ensures x / (0x100 * d) == x / 0x100 / d
  {
    var q, r := x / 0x100, x % 0x100;
    var p, s := q / d, q % d;
    assert 0x100 * d * p == 0x100 * (d * p);
    QuotientUnique(x, 0x100 * d, p, 0x100 * s + r);
  }

  /** The wire order: the byte at position `k` counts for 256^k, so the least significant one is first. */
  lemma {:induction false} LittleAt(x: nat, w: nat, k: nat)
    requires k < w
    ensures Little(x, w)[k] == x / Range(k) % 0x100
  {
    if k > 0 {
      LittleAt(x / 0x100, w - 1, k - 1);
      ShiftTwice(x, Range(k - 1));
    }
  }

  lemma ValueCons(a: Byte, more: seq<Byte>)
    ensures Value([a] + more) == a + 0x100 * Value(more)
  {
    assert ([a] + more)[1..] == more;
  }

  /** The numbers that two and four bytes on the wire stand for. */
  lemma WireOrder(a: Byte, b: Byte, c: Byte, d: Byte)
    ensures Value([a, b]) == a + 0x100 * b
    ensures Value([a, b, c, d]) == a + 0x100 * b + 0x1_0000 * c + 0x100_0000 * d
  {
    ValueCons(d, []);
    ValueCons(c, [d]);
    ValueCons(b, []);
    ValueCons(b, [c, d]);
    ValueCons(a, [b]);
    ValueCons(a, [b, c, d]);
    assert [a] + [b] == [a, b] && [a] + [b, c, d] == [a, b, c, d];
    assert [b] + [c, d] == [b, c, d] && [c] + [d] == [c, d] && [b] + [] == [b] && [d] + [] == [d];
  }

  // ---------- reversebytes ----------

  /** The generic form: the bytes of the object in the opposite order. */
  function ReverseBytes(x: nat, w: nat): nat {
    Value(Reversed(Little(x, w)))
  }

  lemma ReverseBytesInvolutive(x: nat, w: nat)
    requires x < Range(w)
    ensures ReverseBytes(x, w) < Range(w)
    ensures Little(ReverseBytes(x, w), w) == Reversed(Little(x, w))
    ensures ReverseBytes(ReverseBytes(x, w), w) == x
  {
    ValueInRange(Reversed(Little(x, w)));
    LittleOfValue(Reversed(Little(x, w)));
    ReversedTwice(Little(x, w));
    ValueOfLittle(x, w);
  }

  // ---------- signed values ----------

  /** Conversions between a signed type and the unsigned type of the same width keep the bits. */
  ghost function Unsigned(x: int, w: nat): int {
    if x < 0 then x + Range(w) else x
  }

  ghost function Signed(u: nat, w: nat): int {
    if 2 * u >= Range(w) then u - Range(w) else u
  }

  ghost predicate SignedRange(x: int, w: nat) { 0 - Range(w) <= 2 * x < Range(w) }

  /** The signed overloads convert to the unsigned type, reverse there, and convert back. */
  ghost function ReverseSigned(x: int, w: nat): int
    requires SignedRange(x, w)
  {
    Signed(ReverseBytes(Unsigned(x, w), w), w)
  }

  /** They reverse the bytes of the signed object, stay in its type and undo themselves. */
  lemma ReverseSignedInvolutive(x: int, w: nat)
    requires SignedRange(x, w)
    ensures SignedRange(ReverseSigned(x, w), w)
    ensures 0 <= Unsigned(x, w) < Range(w) && (Unsigned(x, w) == x || Unsigned(x, w) == x + Range(w))
    ensures 0 <= Unsigned(ReverseSigned(x, w), w) < Range(w)
    ensures Unsigned(ReverseSigned(x, w), w) == ReverseBytes(Unsigned(x, w), w)
    ensures Little(Unsigned(ReverseSigned(x, w), w), w) == Reversed(Little(Unsigned(x, w), w))
    ensures ReverseSigned(ReverseSigned(x, w), w) == x
  {
    ReverseBytesInvolutive(Unsigned(x, w), w);
  }

  // ---------- the shift/mask forms, on the bits of a value ----------

  function ShiftMask2(x: bv16): bv16 {
    (x << 8) | (x >> 8)
  }

  function ShiftMask4(x: bv32): bv32 {
    (x << 24) | ((x << 8) & 0xff0000) | ((x >> 8) & 0xff00) | (x >> 24)
  }

  function Number(b: bv8): (n: Byte) {
    b as int
  }

  /** The bytes of a two-byte value, least significant first. */
  function Bytes2(x: bv16): (b: seq<Byte>)
    ensures |b| == 2
  {
    [Number((x & 0xff) as bv8), Number((x >> 8) as bv8)]
  }

  function Bytes4(x: bv32): (b: seq<Byte>)
    ensures |b| == 4
  {
    [Number((x & 0xff) as bv8), Number(((x >> 8) & 0xff) as bv8),
     Number(((x >> 16) & 0xff) as bv8), Number((x >> 24) as bv8)]
  }

  lemma JoinTwo(low: bv8, high: bv8)
    ensures ((high as bv16 << 8) | low as bv16) as int == low as int + 0x100 * high as int
  {}

  lemma SplitTwo(x: bv16)
    ensures x == (((x >> 8) as bv8) as bv16 << 8) | ((x & 0xff) as bv8) as bv16
  {}

  lemma JoinFour(low: bv16, high: bv16)
    ensures ((high as bv32 << 16) | low as bv32) as int == low as int + 0x1_0000 * high as int
  {}

  lemma SplitFour(x: bv32)
    ensures x == (((x >> 16) as bv16) as bv32 << 16) | ((x & 0xffff) as bv16) as bv32
    ensures (((x & 0xffff) as bv16) & 0xff) as bv8 == (x & 0xff) as bv8
    ensures (((x & 0xffff) as bv16) >> 8) as bv8 == ((x >> 8) & 0xff) as bv8
    ensures (((x >> 16) as bv16) & 0xff) as bv8 == ((x >> 16) & 0xff) as bv8
    ensures (((x >> 16) as bv16) >> 8) as bv8 == (x >> 24) as bv8
  {}

  /** The bytes taken from the bits of a value are the bytes of its number. */
  lemma Bytes2Value(x: bv16)
    ensures Value(Bytes2(x)) == x as int
  {
    SplitTwo(x);
    JoinTwo((x & 0xff) as bv8, (x >> 8) as bv8);
    WireOrder(Bytes2(x)[0], Bytes2(x)[1], 0, 0);
  }

  lemma HalvesOf(x: bv32)
    ensures Bytes4(x) == Bytes2((x & 0xffff) as bv16) + Bytes2((x >> 16) as bv16)
  {
    SplitFour(x);
  }

  lemma HalvesValue(x: bv32)
    ensures x as int == ((x & 0xffff) as bv16) as int + 0x1_0000 * ((x >> 16) as bv16) as int
  {
    SplitFour(x);
    JoinFour((x & 0xffff) as bv16, (x >> 16) as bv16);
  }

  lemma Bytes4Value(x: bv32)
    ensures Value(Bytes4(x)) == x as int
  {
    var low, high := (x & 0xffff) as bv16, (x >> 16) as bv16;
    HalvesOf(x);
    HalvesValue(x);
    Bytes2Value(low);
    Bytes2Value(high);
    TwoAndTwo(Bytes2(low), Bytes2(high));
  }

  lemma TwoAndTwo(low: seq<Byte>, high: seq<Byte>)
    requires |low| == 2 && |high| == 2
    ensures Value(low + high) == Value(low) + 0x1_0000 * Value(high)
  {
    var a, b, c, d := low[0], low[1], high[0], high[1];
    WireOrder(a, b, c, d);
    WireOrder(c, d, 0, 0);
    assert low == [a, b] && high == [c, d] && low + high == [a, b, c, d];
  }

  lemma ShiftMask2Involutive(x: bv16)
    ensures ShiftMask2(ShiftMask2(x)) == x
  {}

  lemma ShiftMask4Involutive(x: bv32)
    ensures ShiftMask4(ShiftMask4(x)) == x
  {}

  lemma ShiftMask2Moves(x: bv16)
    ensures (ShiftMask2(x) & 0xff) as bv8 == (x >> 8) as bv8
    ensures (ShiftMask2(x) >> 8) as bv8 == (x & 0xff) as bv8
  {}

  lemma ShiftMask4Moves(x: bv32)
    ensures (ShiftMask4(x) & 0xff) as bv8 == (x >> 24) as bv8
    ensures ((ShiftMask4(x) >> 8) & 0xff) as bv8 == ((x >> 16) & 0xff) as bv8
    ensures ((ShiftMask4(x) >> 16) & 0xff) as bv8 == ((x >> 8) & 0xff) as bv8
    ensures (ShiftMask4(x) >> 24) as bv8 == (x & 0xff) as bv8
  {}

  lemma ReversedPair<T>(a: T, b: T)
    ensures Reversed([a, b]) == [b, a]
  {}

  lemma ReversedQuad<T>(a: T, b: T, c: T, d: T)
    ensures Reversed([a, b, c, d]) == [d, c, b, a]
  {}

  /** The two-byte shift/mask form is the generic reversal, and undoes itself. */
  lemma ShiftMask2IsGeneric(x: bv16)
    ensures ShiftMask2(x) as int == ReverseBytes(x as int, 2)
    ensures ShiftMask2(ShiftMask2(x)) == x
  {
    Bytes2Value(x);
    Bytes2Value(ShiftMask2(x));
    ShiftMask2Moves(x);
    ShiftMask2Involutive(x);
    LittleOfValue(Bytes2(x));
    ReversedPair(Bytes2(x)[0], Bytes2(x)[1]);
  }

  /** The four-byte shift/mask form is the generic reversal, and undoes itself. */
  lemma ShiftMask4IsGeneric(x: bv32)
    ensures ShiftMask4(x) as int == ReverseBytes(x as int, 4)
    ensures ShiftMask4(ShiftMask4(x)) == x
  {
    Bytes4Value(x);
    Bytes4Value(ShiftMask4(x));
    ShiftMask4Moves(x);
    ShiftMask4Involutive(x);
    LittleOfValue(Bytes4(x));
    ReversedQuad(Bytes4(x)[0], Bytes4(x)[1], Bytes4(x)[2], Bytes4(x)[3]);
  }

  // ---------- host memory, to_netbo and to_hostbo ----------

  /** Turns little-endian bytes into the memory order of the host, and back. */
  function InMemory(host: Host, little: seq<Byte>): (image: seq<Byte>)
    ensures |image| == |little|
  {
    if host.LittleEndianHost? then little else Reversed(little)
  }

  /** The object representation of a value of width `w`. */
  function Memory(host: Host, x: nat, w: nat): (image: seq<Byte>)
    ensures |image| == w
  {
    InMemory(host, Little(x, w))
  }

  /** The value whose object representation the bytes are. */
  function Loaded(host: Host, image: seq<Byte>): nat {
    Value(InMemory(host, image))
  }

  /** Where the least significant byte of a value lies in the memory of each host. */
  lemma MemoryAt(x: nat, w: nat, k: nat)
    requires k < w
    ensures Memory(LittleEndianHost, x, w)[k] == x / Range(k) % 0x100
    ensures Memory(BigEndianHost, x, w)[w - 1 - k] == x / Range(k) % 0x100
  {
    LittleAt(x, w, k);
  }

  function ToNetbo(host: Host, x: nat, w: nat): nat {
    if host.BigEndianHost? then ReverseBytes(x, w) else x
  }

  function ToHostbo(host: Host, x: nat, w: nat): nat {
    if host.BigEndianHost? then ReverseBytes(x, w) else x
  }

  /** Whatever the host, `writebytes(to_netbo(x))` produces the little-endian form of `x`. */
  lemma WrittenIsLittleEndian(host: Host, x: nat, w: nat)
    requires x < Range(w)
    ensures Memory(host, ToNetbo(host, x, w), w) == Little(x, w)
    ensures forall k :: 0 <= k < w ==> Memory(host, ToNetbo(host, x, w), w)[k] == x / Range(k) % 0x100
  {
    forall k | 0 <= k < w ensures Little(x, w)[k] == x / Range(k) % 0x100 {
      LittleAt(x, w, k);
    }
    ReverseBytesInvolutive(x, w);
    ReversedTwice(Little(x, w));
  }

  /** Whatever the host, `to_hostbo` after `readbytes` gives the value the bytes have on the wire. */
  lemma ReadIsLittleEndian(host: Host, b: seq<Byte>)
    ensures ToHostbo(host, Loaded(host, b), |b|) == Value(b) < Range(|b|)
    ensures forall k :: 0 <= k < |b| ==> b[k] == Value(b) / Range(k) % 0x100
  {
    if host.BigEndianHost? {
      LittleOfValue(Reversed(b));
      ReversedTwice(b);
    }
    ValueInRange(b);
    LittleOfValue(b);
    forall k | 0 <= k < |b| ensures b[k] == Value(b) / Range(k) % 0x100 {
      LittleAt(Value(b), |b|, k);
    }
  }

  /** A value written on one host and read on another arrives unchanged. */
  lemma ByteOrderIndependence(writer: Host, reader: Host, x: nat, w: nat)
    requires x < Range(w)
    ensures ToHostbo(reader, Loaded(reader, Memory(writer, ToNetbo(writer, x, w), w)), w) == x
  {
    WrittenIsLittleEndian(writer, x, w);
    ReadIsLittleEndian(reader, Little(x, w));
    ValueOfLittle(x, w);
  }

  // ---------- in-place access ----------

  /** The sequence `s` with `image` written over it from position `at`. */
  function Spliced<T>(s: seq<T>, at: nat, image: seq<T>): (r: seq<T>)
    requires at + |image| <= |s|
    ensures |r| == |s|
  {
    s[..at] + image + s[at + |image|..]
  }

  /** Two adjacent writes are one write of the concatenation. */
  lemma SplicedTwice<T>(s: seq<T>, at: nat, a: seq<T>, b: seq<T>)
    requires at + |a| + |b| <= |s|
    ensures Spliced(Spliced(s, at, a), at + |a|, b) == Spliced(s, at, a + b)
  {}

  lemma SplicedNothing<T>(s: seq<T>, at: nat)
    requires at <= |s|
    ensures Spliced(s, at, []) == s
  {}

  lemma SplicedOutside<T>(s: seq<T>, at: nat, image: seq<T>)
    requires at + |image| <= |s|
    ensures Spliced(s, at, image)[at..at + |image|] == image
    ensures forall k :: 0 <= k < |s| && !(at <= k < at + |image|) ==> Spliced(s, at, image)[k] == s[k]
  {}

  /** `std::reverse` over the bytes of an object. */
  method ReverseInPlace(bytes: array<Byte>)
    modifies bytes
    ensures bytes[..] == Reversed(old(bytes[..]))
    ensures forall k :: 0 <= k < bytes.Length ==> bytes[k] == old(bytes[bytes.Length - 1 - k])
  {
    var first, last := 0, bytes.Length;
    while first < last
      invariant 0 <= first <= bytes.Length && last == bytes.Length - first && first <= last + 1
      invariant forall k :: 0 <= k < bytes.Length && (k < first || last <= k) ==>
                              bytes[k] == old(bytes[bytes.Length - 1 - k])
      invariant forall k :: first <= k < last ==> bytes[k] == old(bytes[k])
    {
      last := last - 1;
      bytes[first], bytes[last] := bytes[last], bytes[first];
      first := first + 1;
    }
  }

  /** The generic `reversebytes`: reverses the memory image of a value and loads it back. */
  method ReverseObject(host: Host, x: nat, w: nat) returns (r: nat)
    requires x < Range(w)
    ensures r == ReverseBytes(x, w)
  {
    var image := Memory(host, x, w);
    var bytes := new Byte[w](i requires 0 <= i < w => image[i]);
    assert bytes[..] == image;
    ReverseInPlace(bytes);
    r := Loaded(host, bytes[..]);
    ReversedTwice(Reversed(Little(x, w)));
  }

  /** `writebytes`: copies the bytes of a value to the position `it` and returns the position behind them. */
  method WriteBytes(buffer: array<Byte>, it: nat, image: seq<Byte>) returns (next: nat)
    requires it + |image| <= buffer.Length
    modifies buffer
    ensures next == it + |image|
    ensures buffer[..] == Spliced(old(buffer[..]), it, image)
    ensures forall k :: 0 <= k < |image| ==> buffer[it + k] == image[k]
    ensures forall k :: 0 <= k < buffer.Length && !(it <= k < it + |image|) ==> buffer[k] == old(buffer[k])
  {
    var i := 0;
    while i < |image|
      invariant 0 <= i <= |image|
      invariant forall k :: 0 <= k < i ==> buffer[it + k] == image[k]
      invariant forall k :: 0 <= k < buffer.Length && !(it <= k < it + i) ==> buffer[k] == old(buffer[k])
    {
      buffer[it + i] := image[i];
      i := i + 1;
    }
    next := it + i;
    forall k | 0 <= k < buffer.Length
      ensures buffer[..][k] == Spliced(old(buffer[..]), it, image)[k]
    {
      if it <= k < it + |image| {
        assert buffer[it + (k - it)] == image[k - it];
      }
    }
  }

  /** `readbytes`: copies `width` bytes from the position `it` and returns the position behind them. */
  method ReadBytes(data: seq<Byte>, it: nat, width: nat) returns (image: seq<Byte>, next: nat)
    requires it + width <= |data|
    ensures image == data[it..it + width] && next == it + width
  {
    image, next := [], it;
    while next < it + width
      invariant it <= next <= it + width
      invariant image == data[it..next]
    {
      image := image + [data[next]];
      next := next + 1;
    }
  }
}
