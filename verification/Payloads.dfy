/** The JSON models carried by messages (common/include/models), over an abstract JSON library. */
module Payloads {
  import opened Bytes
  import opened Header
  import opened TcpSocket
  import opened Messages

  datatype Node = Node(ip: string, id: int)

  datatype Payload =
    | InitSendFile(filename: string, fileSize: nat)
    | InitReceiveFile(filename: string)
    | DeleteFile(filename: string)
    | InitBackupData(username: string)
    | ConnectedIps(ips: seq<string>)
    | ConnectedNodes(nodes: seq<Node>)
    | ServerId(serverId: int)

  function TypeOf(p: Payload): byte {
    match p
    case InitSendFile(_, _) => INIT_SEND_FILE
    case InitReceiveFile(_) => INIT_RECEIVE_FILE
    case DeleteFile(_) => DELETE_FILE
    case InitBackupData(_) => INIT_BACKUP_DATA
    case ConnectedIps(_) => CONNECTED_IPS
    case ConnectedNodes(_) => CONNECTED_NODES
    case ServerId(_) => SERVER_ID
  }

  /** `toJson` of a model, and `fromJson` for the model of a message type; None where it throws. */
  datatype Codec = Codec(encode: Payload -> Bytes, decode: (byte, Bytes) -> Option<Payload>)

  predicate Int32(n: int) {
    -0x8000_0000 <= n < 0x8000_0000
  }

  /** The values `asUInt` and `asInt` give back; a file size of 2^32 or more makes `fromJson` throw. */
  predicate Representable(p: Payload) {
    match p
    case InitSendFile(_, size) => size < 0x1_0000_0000
    case ConnectedNodes(nodes) => forall n | n in nodes :: Int32(n.id)
    case ServerId(id) => Int32(id)
    case _ => true
  }

  /** File sizes up to 4294967295 and signed 32-bit ids are representable, and everything without a number. */
  lemma WhatIsRepresentable(name: string, size: nat, names: seq<string>, nodes: seq<Node>, id: int)
    ensures Representable(InitSendFile(name, size)) <==> size <= 4294967295
    ensures Representable(InitReceiveFile(name)) && Representable(DeleteFile(name))
    ensures Representable(InitBackupData(name)) && Representable(ConnectedIps(names))
    ensures Representable(ConnectedNodes(nodes)) <==> forall n | n in nodes :: -2147483648 <= n.id <= 2147483647
    ensures Representable(ServerId(id)) <==> -2147483648 <= id <= 2147483647
  {}

  /** The hypothesis about the JSON library: representable models come back as they were. */
  ghost predicate Faithful(c: Codec) {
    forall p: Payload | Representable(p) :: c.decode(TypeOf(p), c.encode(p)) == Some(p)
  }

  /** The encoded model also fits the size field of the header. */
  predicate Sendable(c: Codec, p: Payload) {
    Representable(p) && |c.encode(p)| < 0x1_0000_0000
  }

  function ModelMessage(c: Codec, p: Payload): Message {
    JsonMessage(TypeOf(p), c.encode(p))
  }

  lemma ModelMessageReads(c: Codec, p: Payload)
    requires Faithful(c) && Sendable(c, p)
    ensures WellFormed(ModelMessage(c, p))
    ensures c.decode(ModelMessage(c, p).header.messageType, ModelMessage(c, p).data) == Some(p)
  {}

  /** The type of a model on the wire. */
  lemma ModelOnTheWire(c: Codec, p: Payload)
    requires Sendable(c, p)
    ensures var b := SerializeMessage(ModelMessage(c, p));
      && b[0] == 74 && b[14..] == c.encode(p)
      && b[1] == match p {
        case InitSendFile(_, _) => 5
        case InitReceiveFile(_) => 6
        case DeleteFile(_) => 9
        case InitBackupData(_) => 11
        case ConnectedIps(_) => 12
        case ConnectedNodes(_) => 13
        case ServerId(_) => 14
      }
  {
    hide SerializeMessage;
    JsonOnTheWire(TypeOf(p), c.encode(p));
  }

  method SendModelMessage(socket: TCPSocket, codec: Codec, model: Payload)
    modifies socket
    ensures socket.incoming == old(socket.incoming)
    ensures old(socket.Reliable() && socket.open) ==>
      && socket.Reliable() && socket.open && socket.closes == old(socket.closes)
      && socket.outgoing == old(socket.outgoing) + SerializeMessage(ModelMessage(codec, model))
  {
    SendMessage(socket, ModelMessage(codec, model));
  }
}
