/** Sending a file and receiving it (common/include/messages/fileMessageHandler.hpp). */
module FileTransfer {
  import opened Bytes
  import opened Header
  import opened TcpSocket
  import opened Messages
  import opened FileChunks
  import opened Payloads

  function RawMessages(chunks: seq<FileChunk>): (ms: seq<Message>)
    ensures |ms| == |chunks|
  {
    if chunks == [] then [] else
      [RawMessage(chunks[0].data, chunks[0].numPacket, chunks[0].totalPackets)] + RawMessages(chunks[1..])
  }

  /** What sendFileMessage puts on the wire: the announcement, then the packets. */
  function FileMessages(codec: Codec, name: string, content: Bytes, chunkSize: nat): seq<Message>
    requires chunkSize > 0
  {
    [ModelMessage(codec, InitSendFile(name, |content|))] + RawMessages(Chunks(content, chunkSize))
  }

  /** The end of writeFile: what was written, what is left, no exception, and a socket that closed on the way. */
  datatype Written = Written(content: Bytes, rest: Bytes, complete: bool, closed: bool)

  /**
   * The loop of writeFile over receiveRaw.  A message that is not a packet, or an empty
   * packet, throws: the loop ends and the file keeps what was written so far.
   */
  function WriteLoop(stream: Bytes, written: Bytes): (w: Written)
    ensures |w.rest| <= |stream|
    decreases |stream|
  {
    var head := Take(stream, MESSAGE_HEADER_SIZE);
    var header := Deserialize(head.data);
    if header.messageType != SEND_RAW then Written(written, head.rest, false, head.closed) else
      var body := Take(head.rest, header.dataSize);
      var closed := head.closed || body.closed;
      if body.data == [] then Written(written, body.rest, false, closed)
      else if header.packet == header.totalPackets then Written(written + body.data, body.rest, true, closed)
      else
        assert stream != [];
        var w := WriteLoop(body.rest, written + body.data);
        w.(closed := closed || w.closed)
  }

  lemma WriteLoopStep(stream: Bytes, head: Bytes, body: Bytes, data: Bytes, rest: Bytes, written: Bytes)
    requires Take(stream, MESSAGE_HEADER_SIZE) == Taken(head, body, false)
    requires Deserialize(head).messageType == SEND_RAW
    requires Take(body, Deserialize(head).dataSize) == Taken(data, rest, false) && data != []
    ensures WriteLoop(stream, written) ==
      if Deserialize(head).packet == Deserialize(head).totalPackets then Written(written + data, rest, true, false)
      else WriteLoop(rest, written + data)
  {}

  /** One packet at the head of the stream. */
  lemma WriteLoopPacket(data: Bytes, packet: u32, total: u32, rest: Bytes, written: Bytes)
    requires 0 < |data| < 0x1_0000_0000
    ensures WriteLoop(SerializeMessage(RawMessage(data, packet, total)) + rest, written) ==
      if packet == total then Written(written + data, rest, true, false) else WriteLoop(rest, written + data)
  {
    hide Serialize, Deserialize;
    var m := RawMessage(data, packet, total);
    var stream := SerializeMessage(m) + rest;
    assert stream == Serialize(m.header) + (data + rest);
    HeaderFirst(m.header, data + rest);
    TakeExactly(data, rest);
    WriteLoopStep(stream, Serialize(m.header), data + rest, data, rest, written);
  }

  lemma {:induction false} WriteLoopReadsChunks(
    unread: Bytes, num: nat, total: nat, chunkSize: nat, rest: Bytes, written: Bytes)
    requires chunkSize > 0 && unread != [] && |unread| < 0x1_0000_0000
    requires num + TotalPackets(|unread|, chunkSize) == total + 1 && total < 0x1_0000_0000
    ensures WriteLoop(SerializeAll(RawMessages(ChunksFrom(unread, num, total, chunkSize))) + rest, written)
      == Written(written + unread, rest, true, false)
    decreases |unread|
  {
    hide SerializeMessage, WriteLoop, TotalPackets;
    var n := Min(chunkSize, |unread|);
    var data, later := unread[..n], ChunksFrom(unread[n..], num + 1, total, chunkSize);
    var chunks := ChunksFrom(unread, num, total, chunkSize);
    TotalPacketsStep(|unread|, chunkSize);
    assert chunks[1..] == later;
    var packets := RawMessages(chunks);
    assert packets[1..] == RawMessages(later);
    var tail := SerializeAll(RawMessages(later)) + rest;
    assert SerializeAll(packets) + rest == SerializeMessage(RawMessage(data, num, total)) + tail;
    WriteLoopPacket(data, num, total, tail, written);
    assert unread == data + unread[n..];
    if n < |unread| {
      TotalPacketsStep(|unread| - n, chunkSize);
      WriteLoopReadsChunks(unread[n..], num + 1, total, chunkSize, rest, written + data);
      assert written + unread == (written + data) + unread[n..];
    } else {
      assert later == [] && tail == rest;
      assert written + unread == written + data;
    }
  }

  /** What handleInitSendFile leaves in the file and in the stream. */
  function ReceiveFile(announced: nat, stream: Bytes): (w: Written)
    ensures |w.rest| <= |stream|
  {
    if announced > 0 then WriteLoop(stream, []) else Written([], stream, true, false)
  }

  /**
   * The file transfer round trip on whole streams: any file below 2^32 bytes, cut into
   * packets of any size, is announced and then rebuilt byte for byte, and the receiver
   * stops exactly where the file's last packet ends.
   */
  lemma FileRoundTrip(codec: Codec, name: string, content: Bytes, chunkSize: nat, rest: Bytes)
    requires chunkSize > 0
    requires Faithful(codec) && Sendable(codec, InitSendFile(name, |content|))
    ensures var r := ReceiveOne(SerializeAll(FileMessages(codec, name, content, chunkSize)) + rest);
      && !r.closed
      && codec.decode(r.message.header.messageType, r.message.data) == Some(InitSendFile(name, |content|))
      && ReceiveFile(|content|, r.rest) == Written(content, rest, true, false)
  {
    hide ReceiveOne, SerializeMessage, WriteLoop, TotalPackets, Chunks;
    var m := ModelMessage(codec, InitSendFile(name, |content|));
    var packets := RawMessages(Chunks(content, chunkSize));
    ChunksDefinition(content, chunkSize);
    var stream := SerializeAll(packets) + rest;
    ModelMessageReads(codec, InitSendFile(name, |content|));
    var ms := FileMessages(codec, name, content, chunkSize);
    assert ms[0] == m && ms[1..] == packets;
    assert SerializeAll(ms) + rest == SerializeMessage(m) + stream;
    FramingRoundTrip(m, stream);
    if content != [] {
      TotalPacketsBound(|content|, chunkSize);
      WriteLoopReadsChunks(content, 1, TotalPackets(|content|, chunkSize), chunkSize, rest, []);
    } else {
      assert stream == rest;
    }
  }

  // ---- transfers that break off ----

  /** Where packet `j`, counted from 0, starts in the file. */
  function Offset(j: nat, chunkSize: nat): nat {
    j * chunkSize
  }

  lemma OffsetStep(j: nat, chunkSize: nat)
    ensures j == 0 ==> Offset(j, chunkSize) == 0
    ensures j > 0 ==> Offset(j, chunkSize) == chunkSize + Offset(j - 1, chunkSize)
  {}

  /** The first `j` packets of a file, which are not all of them, are written one behind the other. */
  lemma {:induction false} WriteLoopPrefix(
    unread: Bytes, num: nat, total: nat, chunkSize: nat, j: nat, tail: Bytes, written: Bytes)
    requires chunkSize > 0 && |unread| < 0x1_0000_0000 && j < TotalPackets(|unread|, chunkSize)
    requires num + TotalPackets(|unread|, chunkSize) == total + 1 && total < 0x1_0000_0000
    ensures |ChunksFrom(unread, num, total, chunkSize)| == TotalPackets(|unread|, chunkSize)
    ensures Offset(j, chunkSize) <= |unread|
    ensures WriteLoop(SerializeAll(RawMessages(ChunksFrom(unread, num, total, chunkSize)[..j])) + tail, written)
      == WriteLoop(tail, written + unread[..Offset(j, chunkSize)])
    decreases j
  {
    hide SerializeMessage, WriteLoop, TotalPackets, Offset, ChunksFrom;
    ChunksFromCount(unread, num, total, chunkSize);
    OffsetStep(j, chunkSize);
    var chunks := ChunksFrom(unread, num, total, chunkSize);
    if j == 0 {
      assert SerializeAll(RawMessages(chunks[..0])) + tail == tail;
      assert written + unread[..0] == written;
    } else {
      PacketsOfFirst(unread, chunkSize, j);
      TotalPacketsBound(|unread|, chunkSize);
      var data, later := unread[..chunkSize], unread[chunkSize..];
      WriteLoopPrefix(later, num + 1, total, chunkSize, j - 1, tail, written + data);
      NextChunks(unread, num, total, chunkSize, j);
      FirstPacket(data, num, total,
        SerializeAll(RawMessages(ChunksFrom(later, num + 1, total, chunkSize)[..j - 1])), tail, written);
      WrittenSoFar(unread, chunkSize, Offset(j - 1, chunkSize), written);
    }
  }

  /** More than one packet is left. */
  lemma PacketsOfFirst(unread: Bytes, chunkSize: nat, j: nat)
    requires chunkSize > 0 && 0 < j < TotalPackets(|unread|, chunkSize)
    ensures chunkSize < |unread|
    ensures TotalPackets(|unread|, chunkSize) == TotalPackets(|unread| - chunkSize, chunkSize) + 1
  {
    hide TotalPackets;
    TotalPacketsBound(|unread|, chunkSize);
    TotalPacketsStep(|unread|, chunkSize);
  }

  lemma FirstPacket(data: Bytes, num: u32, total: u32, packets: Bytes, tail: Bytes, written: Bytes)
    requires 0 < |data| < 0x1_0000_0000 && num != total
    ensures WriteLoop((SerializeMessage(RawMessage(data, num, total)) + packets) + tail, written)
      == WriteLoop(packets + tail, written + data)
  {
    hide SerializeMessage, WriteLoop;
    assert (SerializeMessage(RawMessage(data, num, total)) + packets) + tail
      == SerializeMessage(RawMessage(data, num, total)) + (packets + tail);
    WriteLoopPacket(data, num, total, packets + tail, written);
  }

  lemma WrittenSoFar(unread: Bytes, n: nat, m: nat, written: Bytes)
    requires n + m <= |unread|
    ensures written + unread[..n + m] == (written + unread[..n]) + unread[n..][..m]
  {}

  lemma NextChunks(unread: Bytes, num: nat, total: nat, chunkSize: nat, j: nat)
    requires 0 < chunkSize < |unread| && 0 < j <= |ChunksFrom(unread, num, total, chunkSize)|
    ensures |ChunksFrom(unread[chunkSize..], num + 1, total, chunkSize)| >= j - 1
    ensures SerializeAll(RawMessages(ChunksFrom(unread, num, total, chunkSize)[..j]))
      == SerializeMessage(RawMessage(unread[..chunkSize], num, total))
      + SerializeAll(RawMessages(ChunksFrom(unread[chunkSize..], num + 1, total, chunkSize)[..j - 1]))
  {
    hide SerializeMessage;
    var chunks := ChunksFrom(unread, num, total, chunkSize);
    var later := ChunksFrom(unread[chunkSize..], num + 1, total, chunkSize);
    assert chunks[..j] == [FileChunk(unread[..chunkSize], num, total)] + later[..j - 1];
    var ms := RawMessages(chunks[..j]);
    assert chunks[..j][1..] == later[..j - 1];
    assert ms[1..] == RawMessages(later[..j - 1]);
  }

  /** What a receiver of the first `j` packets of a file, followed by `tail`, does about the tail. */
  lemma ReceivePrefix(content: Bytes, chunkSize: nat, j: nat, tail: Bytes)
    requires chunkSize > 0 && |content| < 0x1_0000_0000 && j < |Chunks(content, chunkSize)|
    ensures Offset(j, chunkSize) <= |content|
    ensures ReceiveFile(|content|, SerializeAll(RawMessages(Chunks(content, chunkSize)[..j])) + tail)
      == WriteLoop(tail, content[..Offset(j, chunkSize)])
  {
    hide SerializeMessage, WriteLoop, TotalPackets, Chunks, Offset, ChunksFrom;
    ChunksDefinition(content, chunkSize);
    ChunkCount(content, chunkSize);
    TotalPacketsBound(|content|, chunkSize);
    WriteLoopPrefix(content, 1, TotalPackets(|content|, chunkSize), chunkSize, j, tail, []);
    assert [] + content[..Offset(j, chunkSize)] == content[..Offset(j, chunkSize)];
  }

  /**
   * A transfer that breaks off between packets: the first `j` packets of a file and then the end of the
   * stream, or any message that is not a packet, or an empty packet, leave exactly the first `j` chunks.
   */
  lemma BrokenOffKeepsWhatCame(content: Bytes, chunkSize: nat, j: nat, m: Message, rest: Bytes)
    requires chunkSize > 0 && |content| < 0x1_0000_0000 && j < |Chunks(content, chunkSize)|
    requires WellFormed(m) && (m.header.messageType != 7 || m.data == [])
    ensures var packets := SerializeAll(RawMessages(Chunks(content, chunkSize)[..j]));
      && Offset(j, chunkSize) <= |content|
      && ReceiveFile(|content|, packets) == Written(content[..Offset(j, chunkSize)], [], false, true)
      && ReceiveFile(|content|, packets + SerializeMessage(m) + rest)
        == Written(content[..Offset(j, chunkSize)], m.data + rest, false, false)
  {
    hide SerializeMessage, WriteLoop, Chunks, Serialize, Deserialize, Offset;
    var packets := SerializeAll(RawMessages(Chunks(content, chunkSize)[..j]));
    ReceivePrefix(content, chunkSize, j, []);
    assert packets + [] == packets;
    LoopAtEnd(content[..Offset(j, chunkSize)]);
    ReceivePrefix(content, chunkSize, j, SerializeMessage(m) + rest);
    assert packets + SerializeMessage(m) + rest == packets + (SerializeMessage(m) + rest);
    LoopAtOther(m, rest, content[..Offset(j, chunkSize)]);
  }

  lemma LoopAtEnd(written: Bytes)
    ensures WriteLoop([], written) == Written(written, [], false, true)
  {
    hide Deserialize;
    var head := Take([], MESSAGE_HEADER_SIZE).data;
    HeaderReading(head);
    assert head[1] == 0;
  }

  lemma LoopAtOther(m: Message, rest: Bytes, written: Bytes)
    requires WellFormed(m) && (m.header.messageType != SEND_RAW || m.data == [])
    ensures WriteLoop(SerializeMessage(m) + rest, written) == Written(written, m.data + rest, false, false)
  {
    hide Serialize, Deserialize;
    assert SerializeMessage(m) + rest == Serialize(m.header) + (m.data + rest);
    HeaderFirst(m.header, m.data + rest);
    TakeExactly([], rest);
    assert [] + rest == rest;
  }

  /**
   * A transfer that breaks off inside the payload of packet `j`, counted from 0: the bytes that are missing
   * are written as zeros, and if it was the last packet the transfer even passes for complete.
   */
  lemma CutPayloadIsPadded(content: Bytes, chunkSize: nat, j: nat, k: nat)
    requires chunkSize > 0 && |content| < 0x1_0000_0000
    requires j < |Chunks(content, chunkSize)| && k < |Chunks(content, chunkSize)[j].data|
    ensures var chunks := Chunks(content, chunkSize);
      && |chunks[j].data| < 0x1_0000_0000 && |chunks| < 0x1_0000_0000
      && var packet := SerializeMessage(RawMessage(chunks[j].data, j + 1, |chunks|));
      && Offset(j, chunkSize) + k <= |content|
      && ReceiveFile(|content|, SerializeAll(RawMessages(chunks[..j])) + packet[..14 + k])
        == Written(content[..Offset(j, chunkSize) + k] + Zeros(|chunks[j].data| - k), [], j + 1 == |chunks|, true)
  {
    hide SerializeMessage, WriteLoop, Chunks, TotalPackets, Offset, Serialize, Deserialize;
    var chunks := Chunks(content, chunkSize);
    ChunkSizes(content, chunkSize, j);
    ChunkIs(content, chunkSize, j);
    var m := RawMessage(chunks[j].data, j + 1, |chunks|);
    RawOnTheWire(chunks[j].data, j + 1, |chunks|);
    ReceivePrefix(content, chunkSize, j, SerializeMessage(m)[..14 + k]);
    LoopAtCut(chunks[j].data, j + 1, |chunks|, k, content[..Offset(j, chunkSize)]);
    assert content[..Offset(j, chunkSize)] + (chunks[j].data[..k] + Zeros(|chunks[j].data| - k))
      == content[..Offset(j, chunkSize) + k] + Zeros(|chunks[j].data| - k);
  }

  lemma ChunkSizes(content: Bytes, chunkSize: nat, j: nat)
    requires chunkSize > 0 && |content| < 0x1_0000_0000 && j < |Chunks(content, chunkSize)|
    ensures |Chunks(content, chunkSize)| < 0x1_0000_0000
    ensures 0 < |Chunks(content, chunkSize)[j].data| < 0x1_0000_0000
  {
    hide Chunks, TotalPackets, Offset;
    ChunksPartitionFile(content, chunkSize);
    TotalPacketsBound(|content|, chunkSize);
    ChunkIs(content, chunkSize, j);
  }

  lemma ChunkIs(content: Bytes, chunkSize: nat, j: nat)
    requires chunkSize > 0 && j < |Chunks(content, chunkSize)|
    ensures Offset(j, chunkSize) + |Chunks(content, chunkSize)[j].data| <= |content|
    ensures Chunks(content, chunkSize)[j].data
      == content[Offset(j, chunkSize)..Offset(j, chunkSize) + |Chunks(content, chunkSize)[j].data|]
  {
    hide TotalPackets, ChunksFrom, Offset;
    ChunkFromIs(content, 1, TotalPackets(|content|, chunkSize), chunkSize, j);
  }

  lemma {:induction false} ChunkFromIs(unread: Bytes, num: nat, total: nat, chunkSize: nat, j: nat)
    requires chunkSize > 0 && j < |ChunksFrom(unread, num, total, chunkSize)|
    ensures var data := ChunksFrom(unread, num, total, chunkSize)[j].data;
      && Offset(j, chunkSize) + |data| <= |unread|
      && data == unread[Offset(j, chunkSize)..Offset(j, chunkSize) + |data|]
    decreases j
  {
    hide ChunksFrom, Offset;
    OffsetStep(j, chunkSize);
    ChunksFromStep(unread, num, total, chunkSize);
    var n := Min(chunkSize, |unread|);
    if j > 0 {
      ChunksFromStep(unread[n..], num + 1, total, chunkSize);
      ChunkFromIs(unread[n..], num + 1, total, chunkSize, j - 1);
      var data := ChunksFrom(unread[n..], num + 1, total, chunkSize)[j - 1].data;
      assert unread[n..][Offset(j - 1, chunkSize)..Offset(j - 1, chunkSize) + |data|]
        == unread[Offset(j, chunkSize)..Offset(j, chunkSize) + |data|];
    }
  }

  lemma WireOfRaw(data: Bytes, packet: u32, total: u32, k: nat)
    requires k < |data| < 0x1_0000_0000
    ensures var m := RawMessage(data, packet, total);
      && |SerializeMessage(m)| == 14 + |data|
      && Take(SerializeMessage(m)[..14 + k], 14) == Taken(Serialize(m.header), data[..k], false)
      && Deserialize(Serialize(m.header)) == m.header
  {
    hide Serialize, Deserialize;
    var m := RawMessage(data, packet, total);
    assert SerializeMessage(m)[..14 + k] == Serialize(m.header) + data[..k];
    HeaderFirst(m.header, data[..k]);
  }

  lemma CutBody(data: Bytes, k: nat)
    requires k < |data|
    ensures Take(data[..k], |data|) == Taken(data[..k] + Zeros(|data| - k), [], true)
  {}

  /** A packet that is the last thing on the stream, and cut. */
  lemma LoopAtPacket(stream: Bytes, head: Bytes, body: Bytes, padded: Bytes, written: Bytes)
    requires Take(stream, MESSAGE_HEADER_SIZE) == Taken(head, body, false)
    requires Deserialize(head).messageType == SEND_RAW && padded != []
    requires Take(body, Deserialize(head).dataSize) == Taken(padded, [], true)
    ensures WriteLoop(stream, written) ==
      if Deserialize(head).packet == Deserialize(head).totalPackets then Written(written + padded, [], true, true)
      else WriteLoop([], written + padded).(closed := true)
  {
    hide Deserialize;
  }

  lemma LoopAtCut(data: Bytes, packet: u32, total: u32, k: nat, written: Bytes)
    requires k < |data| < 0x1_0000_0000
    ensures |SerializeMessage(RawMessage(data, packet, total))| == 14 + |data|
    ensures WriteLoop(SerializeMessage(RawMessage(data, packet, total))[..14 + k], written)
      == Written(written + (data[..k] + Zeros(|data| - k)), [], packet == total, true)
  {
    hide Serialize, Deserialize, Zeros, SerializeMessage, WriteLoop;
    var m := RawMessage(data, packet, total);
    WireOfRaw(data, packet, total, k);
    var padded := data[..k] + Zeros(|data| - k);
    CutBody(data, k);
    LoopAtPacket(SerializeMessage(m)[..14 + k], Serialize(m.header), data[..k], padded, written);
    LoopAtEnd(written + padded);
  }

  /**
   * A transfer that breaks off inside the header of a packet: what is missing of the header reads as zeros.
   * Before the type has come that is the end of the transfer; after it, as many zeros are written as the size
   * read so far says, and the packet passes for the last one if the two numbers read are equal.
   */
  lemma CutHeaderIsPadded(content: Bytes, chunkSize: nat, j: nat, h: MessageHeader, k: nat)
    requires chunkSize > 0 && |content| < 0x1_0000_0000 && j < |Chunks(content, chunkSize)|
    requires h.messageType == 7 && 0 < k < 14
    ensures var packets := SerializeAll(RawMessages(Chunks(content, chunkSize)[..j]));
      var read := Deserialize(Serialize(h)[..k] + Zeros(14 - k));
      && Offset(j, chunkSize) <= |content|
      && ReceiveFile(|content|, packets + Serialize(h)[..k])
        == if k == 1 || read.dataSize == 0 then Written(content[..Offset(j, chunkSize)], [], false, true)
           else Written(
             content[..Offset(j, chunkSize)] + Zeros(read.dataSize), [], read.packet == read.totalPackets, true)
  {
    hide Chunks, Serialize, Deserialize, WriteLoop, Offset, Zeros;
    ReceivePrefix(content, chunkSize, j, Serialize(h)[..k]);
    LoopAtCutHeader(h, k, content[..Offset(j, chunkSize)]);
  }

  lemma LoopAtCutHeader(h: MessageHeader, k: nat, written: Bytes)
    requires h.messageType == SEND_RAW && 0 < k < 14
    ensures var read := Deserialize(Serialize(h)[..k] + Zeros(14 - k));
      WriteLoop(Serialize(h)[..k], written)
        == if k == 1 || read.dataSize == 0 then Written(written, [], false, true)
           else Written(written + Zeros(read.dataSize), [], read.packet == read.totalPackets, true)
  {
    hide Serialize, Deserialize;
    var head := Take(Serialize(h)[..k], 14);
    assert head == Taken(Serialize(h)[..k] + Zeros(14 - k), [], true);
    HeaderReading(head.data);
    HeaderReading(Serialize(h));
    DeserializeSerialize(h);
    var read := Deserialize(head.data);
    if k > 1 && read.dataSize > 0 {
      assert Take([], read.dataSize) == Taken(Zeros(read.dataSize), [], true);
      LoopAtEnd(written + Zeros(read.dataSize));
    }
  }

  /**
   * So a transfer can pass for complete that is not: of any packet numbered below 256, if the size and no more
   * than the first half of the numbers have come, a chunk of zeros is written and taken for the last one.
   */
  lemma CutHeaderPassesForComplete(content: Bytes, chunkSize: nat, j: nat, k: nat)
    requires chunkSize > 0 && |content| < 0x1_0000_0000
    requires j < |Chunks(content, chunkSize)| && j + 1 < 256 && 6 <= k < 10
    ensures var chunks := Chunks(content, chunkSize);
      && |chunks[j].data| < 0x1_0000_0000 && |chunks| < 0x1_0000_0000
      && var packet := SerializeMessage(RawMessage(chunks[j].data, j + 1, |chunks|));
      && Offset(j, chunkSize) <= |content|
      && ReceiveFile(|content|, SerializeAll(RawMessages(chunks[..j])) + packet[..k])
        == Written(content[..Offset(j, chunkSize)] + Zeros(|chunks[j].data|), [], true, true)
  {
    hide WriteLoop, Chunks, TotalPackets, Serialize, Deserialize, Offset;
    var chunks := Chunks(content, chunkSize);
    ChunkSizes(content, chunkSize, j);
    ChunkIs(content, chunkSize, j);
    var h := RawMessage(chunks[j].data, j + 1, |chunks|).header;
    assert SerializeMessage(RawMessage(chunks[j].data, j + 1, |chunks|))[..k] == Serialize(h)[..k];
    CutHeaderIsPadded(content, chunkSize, j, h, k);
    CutHeaderReads(h, k);
  }

  lemma CutHeaderReads(h: MessageHeader, k: nat)
    requires h.packet < 256 && 6 <= k < 10
    ensures var read := Deserialize(Serialize(h)[..k] + Zeros(14 - k));
      read.dataSize == h.dataSize && read.packet == 0 && read.totalPackets == 0
  {
    hide Deserialize, Serialize;
    var b := Serialize(h)[..k] + Zeros(14 - k);
    HeaderReading(b);
    HeaderReading(Serialize(h));
    DeserializeSerialize(h);
    HeaderLayout(h);
  }

  // ---- the two ends over sockets ----

  lemma {:induction false} RawMessagesPrefix(chunks: seq<FileChunk>, k: nat)
    requires k < |chunks|
    ensures SerializeAll(RawMessages(chunks[..k + 1])) == SerializeAll(RawMessages(chunks[..k]))
      + SerializeMessage(RawMessage(chunks[k].data, chunks[k].numPacket, chunks[k].totalPackets))
  {
    if k == 0 {
      assert chunks[..1][1..] == [];
      assert RawMessages(chunks[..1])[1..] == [];
    } else {
      RawMessagesPrefix(chunks[1..], k - 1);
      assert chunks[..k + 1][1..] == chunks[1..][..k];
      assert chunks[..k][1..] == chunks[1..][..k - 1];
      assert RawMessages(chunks[..k + 1])[1..] == RawMessages(chunks[1..][..k]);
      assert RawMessages(chunks[..k])[1..] == RawMessages(chunks[1..][..k - 1]);
    }
  }

  method SendFileDataMessage(socket: TCPSocket, file: File) returns (totalSent: nat)
    requires socket.Reliable() && socket.open
    requires file.Valid() && file.position == 0
    modifies socket, file
    ensures socket.Reliable() && socket.open
    ensures socket.incoming == old(socket.incoming)
    ensures socket.outgoing == old(socket.outgoing)
      + SerializeAll(RawMessages(Chunks(file.content, DEFAULT_FILE_CHUNK_SIZE)))
    ensures totalSent == |file.content|
  {
    hide SerializeMessage, Chunks;
    totalSent := 0;
    var chunks := file.ReadFile(DEFAULT_FILE_CHUNK_SIZE);
    for k := 0 to |chunks|
      invariant socket.Reliable() && socket.open
      invariant socket.incoming == old(socket.incoming)
      invariant socket.outgoing == old(socket.outgoing) + SerializeAll(RawMessages(chunks[..k]))
      invariant totalSent == |Concat(chunks[..k])|
    {
      SendMessage(socket, RawMessage(chunks[k].data, chunks[k].numPacket, chunks[k].totalPackets));
      totalSent := totalSent + |chunks[k].data|;
      RawMessagesPrefix(chunks, k);
      ConcatPrefix(chunks, k);
    }
    assert chunks[..|chunks|] == chunks;
    ChunksPartitionFile(file.content, DEFAULT_FILE_CHUNK_SIZE);
  }

  lemma {:induction false} ConcatPrefix(chunks: seq<FileChunk>, k: nat)
    requires k < |chunks|
    ensures Concat(chunks[..k + 1]) == Concat(chunks[..k]) + chunks[k].data
  {
    if k > 0 {
      ConcatPrefix(chunks[1..], k - 1);
      assert chunks[..k + 1][1..] == chunks[1..][..k];
      assert chunks[..k][1..] == chunks[1..][..k - 1];
    }
  }

  method SendFileMessage(socket: TCPSocket, codec: Codec, name: string, file: File)
    requires socket.Reliable() && socket.open
    requires file.Valid() && file.position == 0
    modifies socket, file
    ensures socket.Reliable() && socket.open
    ensures socket.incoming == old(socket.incoming)
    ensures socket.outgoing == old(socket.outgoing)
      + SerializeAll(FileMessages(codec, name, file.content, DEFAULT_FILE_CHUNK_SIZE))
  {
    hide SerializeMessage, Chunks;
    ghost var ms := FileMessages(codec, name, file.content, DEFAULT_FILE_CHUNK_SIZE);
    assert ms[1..] == RawMessages(Chunks(file.content, DEFAULT_FILE_CHUNK_SIZE));
    SendModelMessage(socket, codec, InitSendFile(name, |file.content|));
    var _ := SendFileDataMessage(socket, file);
  }

  method WriteFile(socket: TCPSocket) returns (written: Bytes, complete: bool)
    requires socket.Reliable()
    modifies socket
    ensures socket.Reliable() && socket.outgoing == old(socket.outgoing)
    ensures var w := WriteLoop(old(socket.incoming), []);
      && written == w.content && complete == w.complete && socket.incoming == w.rest
      && socket.open == (old(socket.open) && !w.closed)
  {
    written := [];
    ghost var goal := WriteLoop(socket.incoming, []);
    ghost var closed := false;
    while true
      invariant socket.Reliable() && socket.outgoing == old(socket.outgoing)
      invariant socket.open == (old(socket.open) && !closed)
      invariant var w := WriteLoop(socket.incoming, written);
        goal == w.(closed := closed || w.closed)
      decreases |socket.incoming|
    {
      ghost var stream := socket.incoming;
      var header := ReceiveHeader(socket);
      closed := closed || Take(stream, MESSAGE_HEADER_SIZE).closed;
      if header.messageType != SEND_RAW {
        return written, false;
      }
      ghost var afterHeader := socket.incoming;
      var data := socket.ReceiveVector(header.dataSize);
      closed := closed || Take(afterHeader, header.dataSize).closed;
      if data == [] {
        return written, false;
      }
      written := written + data;
      if header.packet == header.totalPackets {
        return written, true;
      }
    }
  }

  /**
   * Both ends together.  The sender's bytes become the receiver's stream, each kernel
   * cuts them up as it pleases, and whatever follows on the stream stays unread.
   */
  method TransferFile(sender: TCPSocket, receiver: TCPSocket, codec: Codec, name: string, file: File, later: Bytes)
    returns (announced: Option<Payload>, received: Bytes, complete: bool)
    requires sender != receiver
    requires sender.Reliable() && sender.open && sender.outgoing == []
    requires receiver.Reliable() && receiver.open && receiver.incoming == []
    requires file.Valid() && file.position == 0
    requires Faithful(codec) && Sendable(codec, InitSendFile(name, |file.content|))
    modifies sender, receiver, file
    ensures announced == Some(InitSendFile(name, |file.content|))
    ensures received == file.content && complete
    ensures receiver.open && receiver.incoming == later
  {
    hide ReceiveOne, FileMessages, SerializeAll, WriteLoop;
    SendFileMessage(sender, codec, name, file);
    assert sender.outgoing == SerializeAll(FileMessages(codec, name, file.content, DEFAULT_FILE_CHUNK_SIZE));
    receiver.incoming := sender.outgoing + later;
    FileRoundTrip(codec, name, file.content, DEFAULT_FILE_CHUNK_SIZE, later);
    var message := ReceiveMessage(receiver);
    announced := codec.decode(message.header.messageType, message.data);
    if |file.content| > 0 {
      received, complete := WriteFile(receiver);
    } else {
      received, complete := [], true;
    }
  }
}
