/** The election's exchanges on the wire (server/includes/backup/electionMessageHandler.hpp). */
module ElectionMessages {
  import opened Bytes
  import opened Header
  import opened TcpSocket
  import opened Messages

  /** What a node does about a message on its election socket, besides answering it. */
  datatype Action = Nothing | StartElection | EndElection

  /** Only pure headers are acted on; an ELECTION and a COORDINATOR are both answered with ALIVE. */
  function React(header: MessageHeader): Action {
    if header.headerType != PURE_HEADER then Nothing
    else if header.messageType == ELECTION then StartElection
    else if header.messageType == COORDINATOR then EndElection
    else Nothing
  }

  /** The messages acted on, by their numbers: a pure header of type 2 starts an election and one of type 1 ends it. */
  lemma ReactsExactlyTo(header: MessageHeader)
    ensures React(header) == StartElection <==> header.headerType == 72 && header.messageType == 2
    ensures React(header) == EndElection <==> header.headerType == 72 && header.messageType == 1
  {}

  class ElectionMessageHandler {
    const socket: TCPSocket

    constructor (socket: TCPSocket)
      ensures this.socket == socket
    {
      this.socket := socket;
    }

    method SendPure(messageType: byte)
      modifies socket
      ensures socket.incoming == old(socket.incoming)
      ensures old(socket.Reliable() && socket.open) ==>
        && socket.Reliable() && socket.open
        && socket.outgoing == old(socket.outgoing) + SerializeMessage(PureMessage(messageType))
    {
      SendMessage(socket, PureMessage(messageType));
    }

    /** One turn of monitorMessages: the answer leaves before the action and before the payload is read. */
    method HandleOne() returns (action: Action)
      requires socket.Reliable() && socket.open
      modifies socket
      ensures var r := ReceiveOne(old(socket.incoming));
        && action == React(r.message.header) && socket.Reliable() && socket.incoming == r.rest
        && (!r.closed ==>
              && socket.open
              && socket.outgoing == old(socket.outgoing)
                + if action.Nothing? then [] else SerializeMessage(PureMessage(ALIVE)))
    {
      hide SerializeMessage;
      var header := ReceiveHeader(socket);
      action := React(header);
      if !action.Nothing? {
        SendPure(ALIVE);
      }
      var _ := socket.ReceiveVector(header.dataSize);
    }

    /** False stands for the exception on any other answer. */
    method ReceiveAliveMessage() returns (alive: bool)
      requires socket.Reliable()
      modifies socket
      ensures socket.Reliable()
      ensures var t := Take(old(socket.incoming), MESSAGE_HEADER_SIZE);
        && alive == (Deserialize(t.data).messageType == ALIVE) && socket.incoming == t.rest
        && socket.open == (old(socket.open) && !t.closed)
    {
      var header := ReceiveHeader(socket);
      alive := header.messageType == ALIVE;
    }
  }

  /**
   * What counts as an answer.  A peer that closes without a word leaves the header zeroed, and the
   * zero message type is ALIVE: silence followed by a close is taken for an answer.
   */
  lemma AnswersAccepted(stream: Bytes)
    ensures Deserialize(Take(stream, MESSAGE_HEADER_SIZE).data).messageType == ALIVE
      <==> |stream| < 2 || stream[1] == ALIVE
  {
    var data := Take(stream, MESSAGE_HEADER_SIZE).data;
    assert data[1] == if |stream| < 2 then 0 else stream[1];
  }

  lemma PureRoundTrip(messageType: byte)
    ensures ReceiveOne(SerializeMessage(PureMessage(messageType))) == Received(PureMessage(messageType), [], false)
    ensures Take(SerializeMessage(PureMessage(messageType)), MESSAGE_HEADER_SIZE)
      == Taken(SerializeMessage(PureMessage(messageType)), [], false)
    ensures Deserialize(SerializeMessage(PureMessage(messageType))) == PureMessage(messageType).header
  {
    hide Serialize, ReceiveOne, Deserialize;
    var m := PureMessage(messageType);
    assert SerializeMessage(m) + [] == SerializeMessage(m) == Serialize(m.header);
    FramingRoundTrip(m, []);
    HeaderFirst(m.header, []);
    assert Serialize(m.header) + [] == Serialize(m.header);
  }

  /**
   * An exchange between two nodes however the sockets fragment it: the peer acts on the challenge or
   * the announcement, and the sender gets the ALIVE it waits for, with nothing left over either way.
   */
  method Exchange(sender: ElectionMessageHandler, peer: ElectionMessageHandler, messageType: byte)
    returns (action: Action, alive: bool)
    requires sender.socket != peer.socket && (messageType == ELECTION || messageType == COORDINATOR)
    requires sender.socket.Reliable() && sender.socket.open && sender.socket.outgoing == []
    requires peer.socket.Reliable() && peer.socket.open && peer.socket.outgoing == []
    modifies sender.socket, peer.socket
    ensures alive && action == if messageType == ELECTION then StartElection else EndElection
    ensures sender.socket.open && sender.socket.incoming == []
    ensures peer.socket.open && peer.socket.incoming == []
  {
    hide SerializeMessage, ReceiveOne, Deserialize;
    PureRoundTrip(messageType);
    PureRoundTrip(ALIVE);
    sender.SendPure(messageType);
    assert sender.socket.outgoing == SerializeMessage(PureMessage(messageType));
    peer.socket.incoming := sender.socket.outgoing;
    action := peer.HandleOne();
    assert peer.socket.outgoing == SerializeMessage(PureMessage(ALIVE));
    sender.socket.incoming := peer.socket.outgoing;
    alive := sender.ReceiveAliveMessage();
  }
}
