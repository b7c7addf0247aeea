/** Messages and their framing (common/include/messages/message.hpp, messageHandler.hpp). */
module Messages {
  import opened Bytes
  import opened Header
  import opened TcpSocket

  datatype Message = Message(header: MessageHeader, data: Bytes)

  function PureMessage(messageType: byte): Message {
    Message(MessageHeader(PURE_HEADER, messageType, 0, 1, 1), [])
  }

  function JsonMessage(messageType: byte, data: Bytes): Message {
    Message(MessageHeader(JSON_HEADER, messageType, ToU32(|data|), 1, 1), data)
  }

  function RawMessage(data: Bytes, packet: nat, totalPackets: nat): Message {
    Message(MessageHeader(RAW_DATA_HEADER, SEND_RAW, ToU32(|data|), ToU32(packet), ToU32(totalPackets)), data)
  }

  function SerializeMessage(m: Message): (b: Bytes)
    ensures |b| >= MESSAGE_HEADER_SIZE
  {
    Serialize(m.header) + if m.header.headerType != PURE_HEADER then m.data else []
  }

  /** The header announces the payload that follows it. */
  predicate WellFormed(m: Message) {
    |m.data| == m.header.dataSize && (m.header.headerType == PURE_HEADER ==> m.data == [])
  }

  /** The constructors announce every payload whose size fits the header field, and no other. */
  lemma ConstructorsWellFormed(messageType: byte, data: Bytes, packet: nat, totalPackets: nat)
    ensures WellFormed(PureMessage(messageType))
    ensures WellFormed(JsonMessage(messageType, data)) <==> |data| < 0x1_0000_0000
    ensures WellFormed(RawMessage(data, packet, totalPackets)) <==> |data| < 0x1_0000_0000
  {
    if |data| >= 0x1_0000_0000 { assert ToU32(|data|) < |data|; }
  }

  // ---- the wire, byte by byte ----

  /** A pure header, the whole of it. */
  lemma PureOnTheWire(messageType: byte)
    ensures SerializeMessage(PureMessage(messageType)) == [72, messageType, 0, 0, 0, 0, 0, 0, 0, 1, 0, 0, 0, 1]
  {
    HeaderLayout(PureMessage(messageType).header);
  }

  /** A message with a model: its tag, its type, its size, and the payload as it is. */
  lemma JsonOnTheWire(messageType: byte, data: Bytes)
    requires |data| < 0x1_0000_0000
    ensures var b := SerializeMessage(JsonMessage(messageType, data));
      && |b| == 14 + |data| && b[14..] == data && b[0] == 74 && b[1] == messageType
      && MostSignificantFirst(b, 2) == |data| && MostSignificantFirst(b, 6) == 1 && MostSignificantFirst(b, 10) == 1
  {
    hide Serialize, Deserialize, SerializeMessage, MostSignificantFirst;
    HeaderOnTheWire(JsonMessage(messageType, data));
  }

  /** A packet of a file: its tag, its type, its size, its number and how many there are, and the bytes as they are. */
  lemma RawOnTheWire(data: Bytes, packet: u32, total: u32)
    requires |data| < 0x1_0000_0000
    ensures var b := SerializeMessage(RawMessage(data, packet, total));
      && |b| == 14 + |data| && b[14..] == data && b[0] == 82 && b[1] == 7
      && MostSignificantFirst(b, 2) == |data|
      && MostSignificantFirst(b, 6) == packet && MostSignificantFirst(b, 10) == total
  {
    hide Serialize, Deserialize, SerializeMessage, MostSignificantFirst;
    HeaderOnTheWire(RawMessage(data, packet, total));
  }

  lemma HeaderOnTheWire(m: Message)
    requires m.header.headerType != PURE_HEADER
    ensures var b := SerializeMessage(m);
      && |b| == 14 + |m.data| && b == Serialize(m.header) + m.data && b[14..] == m.data
      && b[0] == m.header.headerType && b[1] == m.header.messageType
      && MostSignificantFirst(b, 2) == m.header.dataSize
      && MostSignificantFirst(b, 6) == m.header.packet
      && MostSignificantFirst(b, 10) == m.header.totalPackets
  {
    hide Serialize, Deserialize, MostSignificantFirst;
    var b := SerializeMessage(m);
    HeaderReading(Serialize(m.header));
    DeserializeSerialize(m.header);
    SamePlace(Serialize(m.header), m.data, 2);
    SamePlace(Serialize(m.header), m.data, 6);
    SamePlace(Serialize(m.header), m.data, 10);
  }

  lemma SamePlace(header: Bytes, data: Bytes, o: nat)
    requires o + 4 <= |header|
    ensures MostSignificantFirst(header + data, o) == MostSignificantFirst(header, o)
  {}

  datatype Received = Received(message: Message, rest: Bytes, closed: bool)

  /** One message off a byte stream, header first and then as much payload as it announces. */
  function ReceiveOne(stream: Bytes): (r: Received)
    ensures |r.rest| <= |stream|
    ensures stream != [] ==> |r.rest| < |stream|
  {
    var head := Take(stream, MESSAGE_HEADER_SIZE);
    var header := Deserialize(head.data);
    var body := Take(head.rest, header.dataSize);
    Received(Message(header, body.data), body.rest, head.closed || body.closed)
  }

  lemma HeaderFirst(h: MessageHeader, body: Bytes)
    ensures Take(Serialize(h) + body, MESSAGE_HEADER_SIZE) == Taken(Serialize(h), body, false)
    ensures Deserialize(Take(Serialize(h) + body, MESSAGE_HEADER_SIZE).data) == h
  {
    TakeExactly(Serialize(h), body);
    DeserializeSerialize(h);
  }

  /** A message survives the wire exactly when its header announces its payload. */
  lemma FramingRoundTrip(m: Message, rest: Bytes)
    ensures WellFormed(m) <==> ReceiveOne(SerializeMessage(m) + rest) == Received(m, rest, false)
  {
    var body := if m.header.headerType != PURE_HEADER then m.data else [];
    assert SerializeMessage(m) + rest == Serialize(m.header) + (body + rest);
    HeaderFirst(m.header, body + rest);
    TakeExactly(body, rest);
    var taken := Take(body + rest, m.header.dataSize);
    assert ReceiveOne(SerializeMessage(m) + rest) == Received(Message(m.header, taken.data), taken.rest, taken.closed);
    if taken == Taken(m.data, rest, false) {
      assert |taken.data| + |taken.rest| == |body| + |rest|;
    }
  }

  /** A message of which the stream brings the header and a part of the payload: the rest of it reads as zeros. */
  lemma CutPayload(m: Message, k: nat)
    requires WellFormed(m) && m.header.headerType != PURE_HEADER && k < |m.data|
    ensures ReceiveOne(SerializeMessage(m)[..14 + k])
      == Received(Message(m.header, m.data[..k] + Zeros(|m.data| - k)), [], true)
  {
    hide Serialize, Deserialize;
    assert SerializeMessage(m)[..14 + k] == Serialize(m.header) + m.data[..k];
    HeaderFirst(m.header, m.data[..k]);
  }

  function SerializeAll(ms: seq<Message>): Bytes {
    if ms == [] then [] else SerializeMessage(ms[0]) + SerializeAll(ms[1..])
  }

  lemma {:induction false} SerializeAllConcat(a: seq<Message>, b: seq<Message>)
    ensures SerializeAll(a + b) == SerializeAll(a) + SerializeAll(b)
  {
    if a == [] {
      assert a + b == b;
    } else {
      assert (a + b)[1..] == a[1..] + b;
      SerializeAllConcat(a[1..], b);
    }
  }

  function ReceiveAll(stream: Bytes): seq<Message>
    decreases |stream|
  {
    if stream == [] then [] else
      var r := ReceiveOne(stream);
      [r.message] + ReceiveAll(r.rest)
  }

  /** A stream of announced payloads parses back into the messages it was made of. */
  lemma {:induction false} FramingIsUniquelyDecodable(ms: seq<Message>)
    requires forall m | m in ms :: WellFormed(m)
    ensures ReceiveAll(SerializeAll(ms)) == ms
  {
    hide ReceiveOne, SerializeMessage, WellFormed;
    if ms != [] {
      assert ms[0] in ms;
      FramingRoundTrip(ms[0], SerializeAll(ms[1..]));
      FramingIsUniquelyDecodable(ms[1..]);
      assert ms == [ms[0]] + ms[1..];
    }
  }

  /** Hence different message sequences never share a byte stream. */
  lemma FramingIsInjective(a: seq<Message>, b: seq<Message>)
    requires forall m | m in a :: WellFormed(m)
    requires forall m | m in b :: WellFormed(m)
    requires SerializeAll(a) == SerializeAll(b)
    ensures a == b
  {
    FramingIsUniquelyDecodable(a);
    FramingIsUniquelyDecodable(b);
  }

  // ---- MessageHandler over a socket ----

  method SendMessage(socket: TCPSocket, message: Message)
    modifies socket
    ensures socket.incoming == old(socket.incoming)
    ensures old(socket.Reliable() && socket.open) ==>
      && socket.Reliable() && socket.open && socket.closes == old(socket.closes)
      && socket.outgoing == old(socket.outgoing) + SerializeMessage(message)
  {
    var serialized := SerializeHeader(message.header);
    if message.header.headerType != PURE_HEADER {
      serialized := serialized + message.data;
    }
    assert serialized == SerializeMessage(message);
    socket.Send(serialized, DEFAULT_SOCKET_CHUNK_SIZE);
  }

  method ReceiveHeader(socket: TCPSocket) returns (header: MessageHeader)
    modifies socket
    ensures socket.outgoing == old(socket.outgoing)
    ensures old(socket.Reliable()) ==>
      var t := Take(old(socket.incoming), MESSAGE_HEADER_SIZE);
      && socket.Reliable() && header == Deserialize(t.data) && socket.incoming == t.rest
      && socket.open == (old(socket.open) && !t.closed)
  {
    var bytes := socket.ReceiveVector(MESSAGE_HEADER_SIZE);
    header := DeserializeHeader(bytes);
  }

  method ReceiveMessage(socket: TCPSocket) returns (message: Message)
    modifies socket
    ensures socket.outgoing == old(socket.outgoing)
    ensures old(socket.Reliable()) ==>
      var r := ReceiveOne(old(socket.incoming));
      && socket.Reliable() && message == r.message && socket.incoming == r.rest
      && socket.open == (old(socket.open) && !r.closed)
  {
    var header := ReceiveHeader(socket);
    var data := socket.ReceiveVector(header.dataSize);
    message := Message(header, data);
  }
}
