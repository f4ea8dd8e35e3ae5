/**
 The 936-byte M360 datagram: a 16-byte little-endian header followed by 115 points of
 eight bytes each. `Decode` is what the packet constructor computes, `Encode` is its
 inverse, and the lemmas at the end say that the two are inverse in both directions.
 */
module M360Packet {
  import opened Outcomes

  type byte = b: int | 0 <= b < 0x100
  type u16 = n: int | 0 <= n < 0x1_0000
  type u32 = n: int | 0 <= n < 0x1_0000_0000

  /** A distance that is a measurement; the largest u32 is the "no object" mark. */
  type Measured = n: int | 0 <= n < NO_OBJECT_MARK

  const NO_OBJECT_MARK: u32 := 0xFFFF_FFFF
  const MAGIC: byte := 0x68
  const PROTOCOL_VERSION: byte := 0x00
  const CHANNELS: nat := 115
  const POINTS_PER_REV: nat := 2300
  const PACKETS_PER_REV: nat := 20
  const HEADER_LEN: nat := 16
  const PKT_LEN: nat := 936

  /** A decoded range: infinity in the program, or an exact number of millimetres. */
  datatype Distance = NoObject | Millimetres(mm: Measured)

  datatype PacketFields = PacketFields(
    rotation: u16,
    frequency: u16,
    encoder: u16,
    fraction: u32,
    seconds: u32,
    ranges: seq<Distance>,
    intensities: seq<u32>)
  {
    /** What a packet object satisfies once its constructor has returned. */
    predicate Valid() {
      && encoder < POINTS_PER_REV
      && encoder % CHANNELS == 0
      && |ranges| == CHANNELS
      && |intensities| == CHANNELS
    }

    /** Which of the twenty positions of a revolution this packet fills. */
    function Position(): (k: nat)
      requires Valid()
      ensures k < PACKETS_PER_REV && encoder == CHANNELS * k
    {
      encoder / CHANNELS
    }
  }

  type Packet = p: PacketFields | p.Valid()
    witness PacketFields(0, 0, 0, 0, 0, seq(115, _ => NoObject), seq(115, _ => 0))

  datatype PacketError = EmptyPacket | UnsupportedVersion | InvalidEncoderIndex | ChannelOutOfRange

  /** The encoder point of a channel, with the accessor's range check and wrap-around. */
  function PointIndex(p: Packet, channel: nat): (r: Result<u16, PacketError>)
    ensures r.Ok? <==> channel < CHANNELS
    ensures r.Ok? ==> r.value == p.encoder + channel && r.value < POINTS_PER_REV
  {
    if channel >= CHANNELS then Err(ChannelOutOfRange)
    else Ok((p.encoder + channel) % POINTS_PER_REV % 0x1_0000)
  }

  // ----- Decoding -----

  /** Four bytes shifted into place, least significant first. */
  function Join(b0: byte, b1: byte, b2: byte, b3: byte): u32 {
    b0 as int + 0x100 * b1 as int + 0x1_0000 * b2 as int + 0x100_0000 * b3 as int
  }

  function ReadU16(b: seq<byte>, i: nat): u16
    requires i + 2 <= |b|
  {
    b[i] as int + 0x100 * b[i + 1] as int
  }

  function ReadU32(b: seq<byte>, i: nat): u32
    requires i + 4 <= |b|
  {
    Join(b[i], b[i + 1], b[i + 2], b[i + 3])
  }

  function PointOffset(channel: nat): nat {
    HEADER_LEN + 8 * channel
  }

  function ToDistance(raw: u32): Distance {
    if raw == NO_OBJECT_MARK then NoObject else Millimetres(raw)
  }

  function FromDistance(d: Distance): u32 {
    if d.NoObject? then NO_OBJECT_MARK else d.mm
  }

  function DecodedRanges(b: seq<byte>): (r: seq<Distance>)
    requires |b| == PKT_LEN
    ensures |r| == CHANNELS
  {
    seq(CHANNELS, c requires 0 <= c < CHANNELS => ToDistance(ReadU32(b, PointOffset(c))))
  }

  function DecodedIntensities(b: seq<byte>): (r: seq<u32>)
    requires |b| == PKT_LEN
    ensures |r| == CHANNELS
  {
    seq(CHANNELS, c requires 0 <= c < CHANNELS => ReadU32(b, PointOffset(c) + 4))
  }

  /** The buffers the constructor accepts. */
  predicate Acceptable(b: seq<byte>) {
    && |b| == PKT_LEN
    && b[0] == MAGIC
    && b[1] == PROTOCOL_VERSION
    && ReadU16(b, 6) < POINTS_PER_REV
    && ReadU16(b, 6) % CHANNELS == 0
  }

  function Decode(b: seq<byte>): (r: Result<Packet, PacketError>)
    requires |b| == PKT_LEN
    ensures r.Ok? <==> Acceptable(b)
  {
    if b[0] != MAGIC || b[1] != PROTOCOL_VERSION then Err(UnsupportedVersion)
    else if ReadU16(b, 6) >= POINTS_PER_REV || ReadU16(b, 6) % CHANNELS != 0 then Err(InvalidEncoderIndex)
    else
      Ok(PacketFields(
           ReadU16(b, 2), ReadU16(b, 4), ReadU16(b, 6), ReadU32(b, 8), ReadU32(b, 12),
           DecodedRanges(b), DecodedIntensities(b)))
  }

  /**
   The constructor: the buffer pointer may be null, the header is checked before any point
   is read, and the point arrays are filled channel by channel.
   */
  method Construct(raw: array?<byte>) returns (r: Result<Packet, PacketError>)
    requires raw != null ==> raw.Length == PKT_LEN
    ensures raw == null ==> r == Err(EmptyPacket)
    ensures raw != null ==> r == Decode(raw[..])
  {
    if raw == null {
      return Err(EmptyPacket);
    }
    if raw[0] != MAGIC || raw[1] != PROTOCOL_VERSION {
      return Err(UnsupportedVersion);
    }
    var bytes := raw[..];
    var rotation := ReadU16(bytes, 2);
    var frequency := ReadU16(bytes, 4);
    var encoder := ReadU16(bytes, 6);
    var fraction := ReadU32(bytes, 8);
    var seconds := ReadU32(bytes, 12);
    if encoder >= POINTS_PER_REV || encoder % CHANNELS != 0 {
      return Err(InvalidEncoderIndex);
    }
    var ranges := new Distance[CHANNELS];
    var intensities := new u32[CHANNELS];
    var channel := 0;
    while channel < CHANNELS
      invariant 0 <= channel <= CHANNELS
      invariant raw[..] == bytes
      invariant forall c :: 0 <= c < channel ==> ranges[c] == ToDistance(ReadU32(bytes, PointOffset(c)))
      invariant forall c :: 0 <= c < channel ==> intensities[c] == ReadU32(bytes, PointOffset(c) + 4)
    {
      var pointOffset := 16 + channel * 8;
      var distance := ReadU32(bytes, pointOffset);
      ranges[channel] := if distance == NO_OBJECT_MARK then NoObject else Millimetres(distance);
      intensities[channel] := ReadU32(bytes, pointOffset + 4);
      channel := channel + 1;
    }
    assert ranges[..] == DecodedRanges(bytes);
    assert intensities[..] == DecodedIntensities(bytes);
    r := Ok(PacketFields(rotation, frequency, encoder, fraction, seconds, ranges[..], intensities[..]));
  }

  /** The layout, byte by byte: which buffers are refused and with what, and where each field stands. */
  lemma {:induction false} Layout(b: seq<byte>)
    requires |b| == 936
    ensures var encoder := b[6] as int + 256 * b[7] as int;
            match Decode(b)
            case Err(e) =>
              if b[0] != 0x68 || b[1] != 0 then e == UnsupportedVersion
              else e == InvalidEncoderIndex && (encoder >= 2300 || encoder % 115 != 0)
            case Ok(p) =>
              && b[0] == 0x68 && b[1] == 0 && encoder < 2300 && encoder % 115 == 0
              && p.encoder == encoder
              && p.rotation == b[2] as int + 256 * b[3] as int
              && p.frequency == b[4] as int + 256 * b[5] as int
              && p.fraction == b[8] as int + 256 * b[9] as int + 65536 * b[10] as int + 16777216 * b[11] as int
              && p.seconds == b[12] as int + 256 * b[13] as int + 65536 * b[14] as int + 16777216 * b[15] as int
              && |p.ranges| == |p.intensities| == 115
  {
  }

  /** The point of a channel: eight bytes, the distance first; four bytes of 255 mean that nothing was hit. */
  lemma {:induction false} PointLayout(b: seq<byte>, channel: nat)
    requires |b| == 936 && Decode(b).Ok? && channel < 115
    ensures var p, i := Decode(b).value, 16 + 8 * channel;
            && i + 8 <= 936
            && p.intensities[channel] ==
               b[i + 4] as int + 256 * b[i + 5] as int + 65536 * b[i + 6] as int + 16777216 * b[i + 7] as int
            && p.ranges[channel] ==
               if b[i] == 255 && b[i + 1] == 255 && b[i + 2] == 255 && b[i + 3] == 255 then NoObject
               else Millimetres(
                 b[i] as int + 256 * b[i + 1] as int + 65536 * b[i + 2] as int + 16777216 * b[i + 3] as int)
  {
    hide Join;
    var i := 16 + 8 * channel;
    assert PointOffset(channel) == i;
    JoinMeans(b[i], b[i + 1], b[i + 2], b[i + 3]);
    JoinMeans(b[i + 4], b[i + 5], b[i + 6], b[i + 7]);
  }

  lemma {:induction false} JoinMeans(b0: byte, b1: byte, b2: byte, b3: byte)
    ensures Join(b0, b1, b2, b3) == b0 as int + 256 * b1 as int + 65536 * b2 as int + 16777216 * b3 as int
    ensures Join(b0, b1, b2, b3) == NO_OBJECT_MARK <==> b0 == 255 && b1 == 255 && b2 == 255 && b3 == 255
  {
  }

  // ----- Encoding -----

  /** Byte `k` of a little-endian number, least significant first. */
  function LittleEndian(v: u32, k: nat): byte
    requires k < 4
  {
    if k == 0 then v % 0x100
    else if k == 1 then v / 0x100 % 0x100
    else if k == 2 then v / 0x100 / 0x100 % 0x100
    else v / 0x100 / 0x100 / 0x100
  }

  function HeaderByte(p: Packet, i: nat): byte
    requires i < HEADER_LEN
  {
    if i == 0 then MAGIC
    else if i == 1 then PROTOCOL_VERSION
    else if i < 4 then LittleEndian(p.rotation, i - 2)
    else if i < 6 then LittleEndian(p.frequency, i - 4)
    else if i < 8 then LittleEndian(p.encoder, i - 6)
    else if i < 12 then LittleEndian(p.fraction, i - 8)
    else LittleEndian(p.seconds, i - 12)
  }

  function PointByte(p: Packet, channel: nat, k: nat): byte
    requires channel < CHANNELS && k < 8
  {
    if k < 4 then LittleEndian(FromDistance(p.ranges[channel]), k)
    else LittleEndian(p.intensities[channel], k - 4)
  }

  function ByteAt(p: Packet, i: nat): byte
    requires i < PKT_LEN
  {
    if i < HEADER_LEN then HeaderByte(p, i)
    else PointByte(p, (i - HEADER_LEN) / 8, (i - HEADER_LEN) % 8)
  }

  /** The datagram a device sends for a packet, byte by byte. */
  function Encode(p: Packet): (b: seq<byte>)
    ensures |b| == PKT_LEN
  {
    seq(PKT_LEN, i requires 0 <= i < PKT_LEN => ByteAt(p, i))
  }

  // ----- Round trips -----

  lemma LittleEndianSum(v: u32)
    ensures Join(LittleEndian(v, 0), LittleEndian(v, 1), LittleEndian(v, 2), LittleEndian(v, 3)) == v
  {
  }

  lemma LittleEndianDigits(b0: byte, b1: byte, b2: byte, b3: byte)
    ensures var v := Join(b0, b1, b2, b3);
            && LittleEndian(v, 0) == b0 && LittleEndian(v, 1) == b1
            && LittleEndian(v, 2) == b2 && LittleEndian(v, 3) == b3
  {
    var v := Join(b0, b1, b2, b3);
    var q1 := b1 as int + 0x100 * b2 as int + 0x1_0000 * b3 as int;
    var q2 := b2 as int + 0x100 * b3 as int;
    assert v == b0 as int + 0x100 * q1;
    Quotient(b0, q1);
    Quotient(b1, q2);
    Quotient(b2, b3);
  }

  lemma Quotient(digit: byte, rest: nat)
    ensures (digit as int + 0x100 * rest) / 0x100 == rest
    ensures (digit as int + 0x100 * rest) % 0x100 == digit
  {
  }

  lemma EncodedPointAt(p: Packet, channel: nat, k: nat)
    requires channel < CHANNELS && k < 8
    ensures Encode(p)[PointOffset(channel) + k] == PointByte(p, channel, k)
  {
    assert (8 * channel + k) / 8 == channel && (8 * channel + k) % 8 == k;
  }

  lemma ReadBackShort(b: seq<byte>, i: nat, v: u16)
    requires i + 2 <= |b|
    requires b[i] == LittleEndian(v, 0) && b[i + 1] == LittleEndian(v, 1)
    ensures ReadU16(b, i) == v
  {
    LittleEndianSum(v);
  }

  lemma ReadBackLong(b: seq<byte>, i: nat, v: u32)
    requires i + 4 <= |b|
    requires forall k :: 0 <= k < 4 ==> b[i + k] == LittleEndian(v, k)
    ensures ReadU32(b, i) == v
  {
    assert b[i + 0] == LittleEndian(v, 0) && b[i + 1] == LittleEndian(v, 1);
    assert b[i + 2] == LittleEndian(v, 2) && b[i + 3] == LittleEndian(v, 3);
    LittleEndianSum(v);
  }

  lemma ReadBackPoint(p: Packet, channel: nat)
    requires channel < CHANNELS
    ensures ReadU32(Encode(p), PointOffset(channel)) == FromDistance(p.ranges[channel])
    ensures ReadU32(Encode(p), PointOffset(channel) + 4) == p.intensities[channel]
  {
    forall k | 0 <= k < 8
      ensures Encode(p)[PointOffset(channel) + k] == PointByte(p, channel, k)
    {
      EncodedPointAt(p, channel, k);
    }
    PointFromBytes(Encode(p), p, channel);
  }

  lemma PointFromBytes(b: seq<byte>, p: Packet, channel: nat)
    requires channel < CHANNELS && |b| == PKT_LEN
    requires forall k :: 0 <= k < 8 ==> b[PointOffset(channel) + k] == PointByte(p, channel, k)
    ensures ReadU32(b, PointOffset(channel)) == FromDistance(p.ranges[channel])
    ensures ReadU32(b, PointOffset(channel) + 4) == p.intensities[channel]
  {
    var o := PointOffset(channel);
    assert b[o + 0] == PointByte(p, channel, 0) && b[o + 1] == PointByte(p, channel, 1);
    assert b[o + 2] == PointByte(p, channel, 2) && b[o + 3] == PointByte(p, channel, 3);
    LittleEndianSum(FromDistance(p.ranges[channel]));
    assert b[o + 4] == PointByte(p, channel, 4) && b[o + 5] == PointByte(p, channel, 5);
    assert b[o + 6] == PointByte(p, channel, 6) && b[o + 7] == PointByte(p, channel, 7);
    LittleEndianSum(p.intensities[channel]);
  }

  lemma ReadBackHeader(p: Packet)
    ensures var b := Encode(p);
            && b[0] == MAGIC && b[1] == PROTOCOL_VERSION
            && ReadU16(b, 2) == p.rotation && ReadU16(b, 4) == p.frequency && ReadU16(b, 6) == p.encoder
            && ReadU32(b, 8) == p.fraction && ReadU32(b, 12) == p.seconds
  {
    var b := Encode(p);
    ReadBackShort(b, 2, p.rotation);
    ReadBackShort(b, 4, p.frequency);
    ReadBackShort(b, 6, p.encoder);
    ReadBackLong(b, 8, p.fraction);
    ReadBackLong(b, 12, p.seconds);
  }

  /** Whatever packet a device encodes, the constructor recovers it exactly. */
  lemma DecodeEncode(p: Packet)
    ensures Decode(Encode(p)) == Ok(p)
  {
    var b := Encode(p);
    ReadBackHeader(p);
    forall c | 0 <= c < CHANNELS
      ensures DecodedRanges(b)[c] == p.ranges[c] && DecodedIntensities(b)[c] == p.intensities[c]
    {
      ReadBackPoint(p, c);
    }
    assert DecodedRanges(b) == p.ranges;
    assert DecodedIntensities(b) == p.intensities;
  }

  lemma DecodedHeaderByte(b: seq<byte>, i: nat)
    requires Acceptable(b) && i < HEADER_LEN
    ensures HeaderByte(Decode(b).value, i) == b[i]
  {
    if 2 <= i < 4 {
      LittleEndianDigits(b[2], b[3], 0, 0);
    } else if 4 <= i < 6 {
      LittleEndianDigits(b[4], b[5], 0, 0);
    } else if 6 <= i < 8 {
      LittleEndianDigits(b[6], b[7], 0, 0);
    } else if 8 <= i < 12 {
      LittleEndianDigits(b[8], b[9], b[10], b[11]);
    } else if 12 <= i {
      LittleEndianDigits(b[12], b[13], b[14], b[15]);
    }
  }

  lemma DecodedPointByte(b: seq<byte>, p: Packet, c: nat, k: nat)
    requires |b| == PKT_LEN && c < CHANNELS && k < 8
    requires p.ranges[c] == ToDistance(ReadU32(b, PointOffset(c)))
    requires p.intensities[c] == ReadU32(b, PointOffset(c) + 4)
    ensures PointByte(p, c, k) == b[PointOffset(c) + k]
  {
    var o := PointOffset(c);
    if k < 4 {
      LittleEndianDigits(b[o], b[o + 1], b[o + 2], b[o + 3]);
    } else {
      LittleEndianDigits(b[o + 4], b[o + 5], b[o + 6], b[o + 7]);
    }
  }

  lemma DecodedByte(b: seq<byte>, i: nat)
    requires Acceptable(b) && i < PKT_LEN
    ensures ByteAt(Decode(b).value, i) == b[i]
  {
    if i < HEADER_LEN {
      DecodedHeaderByte(b, i);
    } else {
      var c, k := (i - HEADER_LEN) / 8, (i - HEADER_LEN) % 8;
      assert PointOffset(c) + k == i;
      DecodedPointByte(b, Decode(b).value, c, k);
    }
  }

  /**
   Every accepted buffer is the encoding of what was decoded from it: no byte of the 936 is
   skipped, and none is read twice with different meanings.
   */
  lemma EncodeDecode(b: seq<byte>)
    requires Acceptable(b)
    ensures Encode(Decode(b).value) == b
  {
    var p := Decode(b).value;
    forall i | 0 <= i < PKT_LEN
      ensures Encode(p)[i] == b[i]
    {
      DecodedByte(b, i);
    }
  }
}
