/** The 14-byte message header (common/include/messages/messageTypes.hpp). */
module Header {
  import opened Bytes

  const MESSAGE_HEADER_SIZE: nat := 14

  const JSON_HEADER: byte := 74
  const RAW_DATA_HEADER: byte := 82
  const PURE_HEADER: byte := 72

  const ALIVE: byte := 0
  const COORDINATOR: byte := 1
  const ELECTION: byte := 2
  const ERROR: byte := 3
  const INIT_SEND_FILE: byte := 5
  const INIT_RECEIVE_FILE: byte := 6
  const SEND_RAW: byte := 7
  const DELETE_FILE: byte := 9
  const INIT_BACKUP_DATA: byte := 11
  const CONNECTED_IPS: byte := 12
  const CONNECTED_NODES: byte := 13
  const SERVER_ID: byte := 14

  datatype MessageHeader = MessageHeader(
    headerType: byte, messageType: byte, dataSize: u32, packet: u32, totalPackets: u32)

  /** `x` in `n` big-endian bytes. */
  function BigEndian(x: nat, n: nat): (b: Bytes)
    ensures |b| == n
  {
    if n == 0 then [] else BigEndian(x / 256, n - 1) + [x % 256]
  }

  function FromBigEndian(b: Bytes): nat {
    if b == [] then 0 else FromBigEndian(b[..|b| - 1]) * 256 + b[|b| - 1]
  }

  function Pow256(n: nat): (p: nat)
    ensures p >= 1
  {
    if n == 0 then 1 else 256 * Pow256(n - 1)
  }

  lemma Pow256Values()
    ensures Pow256(0) == 1 && Pow256(1) == 256 && Pow256(2) == 0x1_0000
    ensures Pow256(3) == 0x100_0000 && Pow256(4) == 0x1_0000_0000
  {
    assert Pow256(1) == 256 * Pow256(0);
    assert Pow256(2) == 256 * Pow256(1);
    assert Pow256(3) == 256 * Pow256(2);
    assert Pow256(4) == 256 * Pow256(3);
  }

  lemma {:induction false} FromBigEndianBound(b: Bytes)
    ensures FromBigEndian(b) < Pow256(|b|)
  {
    if b != [] { FromBigEndianBound(b[..|b| - 1]); }
  }

  lemma {:induction false} DecodeEncode(x: nat, n: nat)
    requires x < Pow256(n)
    ensures FromBigEndian(BigEndian(x, n)) == x
  {
    if n > 0 {
      DecodeEncode(x / 256, n - 1);
      assert BigEndian(x, n)[..n - 1] == BigEndian(x / 256, n - 1);
    }
  }

  lemma {:induction false} EncodeDecode(b: Bytes)
    ensures BigEndian(FromBigEndian(b), |b|) == b
  {
    if b != [] { EncodeDecode(b[..|b| - 1]); }
  }

  lemma FourBytes(b: Bytes)
    requires |b| == 4
    ensures FromBigEndian(b) < 0x1_0000_0000
  {
    FromBigEndianBound(b);
    Pow256Values();
  }

  function Field(b: Bytes, offset: nat): u32
    requires offset + 4 <= |b|
  {
    FourBytes(b[offset..offset + 4]);
    FromBigEndian(b[offset..offset + 4])
  }

  function Serialize(h: MessageHeader): (b: Bytes)
    ensures |b| == MESSAGE_HEADER_SIZE
  {
    [h.headerType, h.messageType]
    + BigEndian(h.dataSize, 4) + BigEndian(h.packet, 4) + BigEndian(h.totalPackets, 4)
  }

  function Deserialize(b: Bytes): MessageHeader
    requires |b| == MESSAGE_HEADER_SIZE
  {
    MessageHeader(b[0], b[1], Field(b, 2), Field(b, 6), Field(b, 10))
  }

  lemma DeserializeSerialize(h: MessageHeader)
    ensures Deserialize(Serialize(h)) == h
  {
    var b := Serialize(h);
    Pow256Values();
    assert b[2..6] == BigEndian(h.dataSize, 4);
    assert b[6..10] == BigEndian(h.packet, 4);
    assert b[10..14] == BigEndian(h.totalPackets, 4);
    DecodeEncode(h.dataSize, 4);
    DecodeEncode(h.packet, 4);
    DecodeEncode(h.totalPackets, 4);
  }

  lemma SerializeDeserialize(b: Bytes)
    requires |b| == MESSAGE_HEADER_SIZE
    ensures Serialize(Deserialize(b)) == b
  {
    EncodeDecode(b[2..6]);
    EncodeDecode(b[6..10]);
    EncodeDecode(b[10..14]);
    assert b == b[..2] + b[2..6] + b[6..10] + b[10..14];
  }

  // ---- the layout, byte by byte ----

  lemma FourDigits(x: u32)
    ensures BigEndian(x, 4) == [x / 0x100_0000 % 256, x / 0x1_0000 % 256, x / 0x100 % 256, x % 256]
  {
    assert BigEndian(x / 0x100_0000, 1) == BigEndian(x / 0x1_0000_0000, 0) + [x / 0x100_0000 % 256];
    assert BigEndian(x / 0x1_0000, 2) == BigEndian(x / 0x100_0000, 1) + [x / 0x1_0000 % 256];
    assert BigEndian(x / 0x100, 3) == BigEndian(x / 0x1_0000, 2) + [x / 0x100 % 256];
    assert BigEndian(x, 4) == BigEndian(x / 0x100, 3) + [x % 256];
  }

  /** The header on the wire: two tags, and size, packet and number of packets with the most significant byte first. */
  lemma HeaderLayout(h: MessageHeader)
    ensures Serialize(h) == [
      h.headerType, h.messageType,
      h.dataSize / 0x100_0000 % 256, h.dataSize / 0x1_0000 % 256, h.dataSize / 0x100 % 256, h.dataSize % 256,
      h.packet / 0x100_0000 % 256, h.packet / 0x1_0000 % 256, h.packet / 0x100 % 256, h.packet % 256,
      h.totalPackets / 0x100_0000 % 256, h.totalPackets / 0x1_0000 % 256, h.totalPackets / 0x100 % 256,
      h.totalPackets % 256]
  {
    FourDigits(h.dataSize);
    FourDigits(h.packet);
    FourDigits(h.totalPackets);
  }

  function MostSignificantFirst(b: Bytes, o: nat): int
    requires o + 4 <= |b|
  {
    (b[o] as int) * 0x100_0000 + (b[o + 1] as int) * 0x1_0000 + (b[o + 2] as int) * 0x100 + b[o + 3] as int
  }

  lemma FieldValue(b: Bytes, o: nat)
    requires o + 4 <= |b|
    ensures Field(b, o) == MostSignificantFirst(b, o)
  {
    var f := b[o..o + 4];
    assert f[..3][..2] == f[..2] && f[..2][..1] == f[..1] && f[..1][..0] == [];
    assert FromBigEndian(f[..1]) == b[o] as int;
    assert FromBigEndian(f[..2]) == FromBigEndian(f[..1]) * 256 + b[o + 1] as int;
    assert FromBigEndian(f[..3]) == FromBigEndian(f[..2]) * 256 + b[o + 2] as int;
  }

  /** And what any 14 bytes are read as. */
  lemma HeaderReading(b: Bytes)
    requires |b| == MESSAGE_HEADER_SIZE
    ensures var h := Deserialize(b);
      && h.headerType == b[0] && h.messageType == b[1]
      && h.dataSize == MostSignificantFirst(b, 2)
      && h.packet == MostSignificantFirst(b, 6)
      && h.totalPackets == MostSignificantFirst(b, 10)
  {
    FieldValue(b, 2);
    FieldValue(b, 6);
    FieldValue(b, 10);
  }

  // ---- the loops ----

  lemma ShiftStep(x: u32, i: nat)
    requires i < 4
    ensures x / Pow256(i + 1) == x / Pow256(i) / 256
  {
    Pow256Values();
    if i == 0 {} else if i == 1 {} else if i == 2 {} else {}
  }

  /** The loop that pushes `(x >> (i * 8)) & 0xFF` for `i` from 3 down to 0. */
  method PushField(x: u32) returns (bytes: Bytes)
    ensures bytes == BigEndian(x, 4)
  {
    bytes := [];
    Pow256Values();
    for i := 4 downto 0
      invariant |bytes| == 4 - i
      invariant bytes == BigEndian(x / Pow256(i), 4 - i)
    {
      ShiftStep(x, i);
      bytes := bytes + [(x / Pow256(i)) % 256];
    }
  }

  /** The loop that accumulates `(value << 8) | byte` in a `uint32_t`. */
  method ExtractField(bytes: Bytes, offset: nat) returns (value: u32)
    requires offset + 4 <= |bytes|
    ensures value == Field(bytes, offset)
  {
    ghost var field := bytes[offset..offset + 4];
    value := 0;
    for i := 0 to 4
      invariant value == FromBigEndian(field[..i])
      invariant value < Pow256(i)
    {
      assert field[..i + 1][..i] == field[..i];
      FourBytes(field);
      Pow256Values();
      FromBigEndianBound(field[..i + 1]);
      value := ToU32(value * 256) + bytes[offset + i];
    }
    assert field[..4] == field;
  }

  method SerializeHeader(h: MessageHeader) returns (bytes: Bytes)
    ensures bytes == Serialize(h)
  {
    bytes := [h.headerType, h.messageType];
    var size := PushField(h.dataSize);
    var packet := PushField(h.packet);
    var total := PushField(h.totalPackets);
    bytes := bytes + size + packet + total;
  }

  method DeserializeHeader(bytes: Bytes) returns (h: MessageHeader)
    requires |bytes| == MESSAGE_HEADER_SIZE
    ensures h == Deserialize(bytes)
  {
    var dataSize := ExtractField(bytes, 2);
    var packet := ExtractField(bytes, 6);
    var totalPackets := ExtractField(bytes, 10);
    h := MessageHeader(bytes[0], bytes[1], dataSize, packet, totalPackets);
  }
}
