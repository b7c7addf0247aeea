/**
 * The two ends of a replication socket: the monitors of a primary
 * (server/src/primary/localMonitor/localMonitor.cpp, backupMonitor.hpp) and the message handler
 * of a backup (server/includes/backupMessageHandler.hpp over fileMessageHandler.hpp).
 */
module Monitors {
  import opened Bytes
  import opened Header
  import opened TcpSocket
  import opened Messages
  import opened FileChunks
  import opened Payloads
  import opened FileTransfer
  import opened BackupStream
  import opened Replication
  import opened ChangeQueues

  const CHUNK: nat := DEFAULT_FILE_CHUNK_SIZE

  /** What a run of changes amounts to, each sent against the store of its own moment. */
  function OpsAt(stores: seq<Store>, cs: seq<Change>): seq<ReplicaOp>
    requires |stores| == |cs|
  {
    seq(|cs|, i requires 0 <= i < |cs| => OpFor(stores[i], cs[i]))
  }

  lemma OpsAtSnoc(stores: seq<Store>, cs: seq<Change>, n: nat)
    requires |stores| == |cs| && n < |cs|
    ensures OpsAt(stores[..n + 1], cs[..n + 1]) == OpsAt(stores[..n], cs[..n]) + [OpFor(stores[n], cs[n])]
  {
    hide OpFor;
  }

  /** What the rest of the server did since the last turn of a monitor's loop, and the store it left. */
  datatype Moment<T> = Moment(pushed: seq<T>, store: Store)

  /** Turn after turn: the changes pushed meanwhile go to the end of the queue, and one is sent from its front. */
  function DrainOps(q: seq<Change>, turns: seq<Moment<Change>>): seq<ReplicaOp>
    decreases |turns|
  {
    if turns == [] then [] else
      var q' := q + turns[0].pushed;
      (if q' == [] then [] else [OpFor(turns[0].store, q'[0])]) + DrainOps(q'[Min(1, |q'|)..], turns[1..])
  }

  /** The turns that find something to pop. */
  function Popping(q: seq<Change>, turns: seq<Moment<Change>>): seq<Moment<Change>>
    decreases |turns|
  {
    if turns == [] then [] else
      var q' := q + turns[0].pushed;
      (if q' == [] then [] else [turns[0]]) + Popping(q'[Min(1, |q'|)..], turns[1..])
  }

  /** An idle turn sends nothing and leaves nothing behind. */
  lemma {:induction false} IdleTurnsSendNothing(q: seq<Change>, turns: seq<Moment<Change>>)
    ensures DrainOps(q, turns) == DrainOps(q, Popping(q, turns))
    decreases |turns|
  {
    hide OpFor;
    if turns != [] {
      var q' := q + turns[0].pushed;
      var rest := q'[Min(1, |q'|)..];
      IdleTurnsSendNothing(rest, turns[1..]);
      if q' == [] {
        assert q == [] && Popping(q, turns) == Popping(rest, turns[1..]);
      } else {
        var popping := Popping(q, turns);
        assert popping[0] == turns[0] && popping[1..] == Popping(rest, turns[1..]);
      }
    }
  }

  function DrainRest<T>(q: seq<T>, turns: seq<Moment<T>>): seq<T>
    decreases |turns|
  {
    if turns == [] then q else
      var q' := q + turns[0].pushed;
      DrainRest(q'[Min(1, |q'|)..], turns[1..])
  }

  lemma StreamSnoc(c: Codec, to: Channel, ops: seq<ReplicaOp>, op: ReplicaOp)
    ensures StreamOf(c, to, ops + [op], CHUNK)
      == StreamOf(c, to, ops, CHUNK) + SerializeAll(OpMessages(c, to, op, CHUNK))
  {
    StreamOfConcat(c, to, ops, [op], CHUNK);
    StreamOfOne(c, to, op, CHUNK);
  }

  /** sendFileChange of either monitor. */
  method SendFileChange(socket: TCPSocket, codec: Codec, to: Channel, store: Store, c: Change)
    requires socket.Reliable() && socket.open
    modifies socket
    ensures socket.Reliable() && socket.open && socket.incoming == old(socket.incoming)
    ensures socket.outgoing == old(socket.outgoing) + SerializeAll(OpMessages(codec, to, OpFor(store, c), CHUNK))
  {
    hide SerializeMessage, FileMessages, SerializeAll, Prefix;
    if to.ToBackup? {
      SendModelMessage(socket, codec, InitBackupData(c.key.user));
    }
    ghost var prefix := Prefix(codec, to, c.key.user);
    PrefixBytes(codec, to, c.key.user);
    assert socket.outgoing == old(socket.outgoing) + SerializeAll(prefix);
    match c.kind {
      case FileCreated =>
        if c.key in store {
          var file := new File(store[c.key]);
          SendFileMessage(socket, codec, c.key.name, file);
          SerializeAllConcat(prefix, FileMessages(codec, c.key.name, store[c.key], CHUNK));
        }
      case FileDeleted =>
        SendModelMessage(socket, codec, DeleteFile(c.key.name));
        SerializeOne(ModelMessage(codec, DeleteFile(c.key.name)));
        SerializeAllConcat(prefix, [ModelMessage(codec, DeleteFile(c.key.name))]);
    }
  }

  lemma PrefixBytes(c: Codec, to: Channel, user: string)
    ensures SerializeAll(Prefix(c, to, user))
      == if to.ToBackup? then SerializeMessage(ModelMessage(c, InitBackupData(user))) else []
    ensures Prefix(c, to, user) + [] == Prefix(c, to, user)
  {
    hide SerializeMessage;
    SerializeOne(ModelMessage(c, InitBackupData(user)));
  }

  lemma NothingToSend(c: Codec, to: Channel)
    ensures StreamOf(c, to, [], CHUNK) == []
  {}

  function Created(user: string, names: seq<string>): (cs: seq<Change>)
    ensures |cs| == |names|
  {
    seq(|names|, i requires 0 <= i < |names| => Change(Key(user, names[i]), FileCreated))
  }

  /** A device's queue as the engine sees it. */
  function KeyedChanges(user: string, q: seq<FileChange>): seq<Change> {
    seq(|q|, i requires 0 <= i < |q| => Change(Key(user, q[i].filename), q[i].changeType))
  }

  function KeyedTurns(user: string, turns: seq<Moment<FileChange>>): seq<Moment<Change>> {
    seq(|turns|, i requires 0 <= i < |turns| => Moment(KeyedChanges(user, turns[i].pushed), turns[i].store))
  }

  /** The loop over the files of a listing, which may change under it. */
  method SendAll(socket: TCPSocket, codec: Codec, to: Channel, stores: seq<Store>, changes: seq<Change>)
    requires socket.Reliable() && socket.open && |stores| == |changes|
    modifies socket
    ensures socket.Reliable() && socket.open && socket.incoming == old(socket.incoming)
    ensures socket.outgoing == old(socket.outgoing) + StreamOf(codec, to, OpsAt(stores, changes), CHUNK)
  {
    hide OpMessages, OpFor, SerializeAll, StreamOf;
    assert OpsAt(stores[..0], changes[..0]) == [];
    NothingToSend(codec, to);
    for i := 0 to |changes|
      invariant socket.Reliable() && socket.open && socket.incoming == old(socket.incoming)
      invariant socket.outgoing
        == old(socket.outgoing) + StreamOf(codec, to, OpsAt(stores[..i], changes[..i]), CHUNK)
    {
      SendFileChange(socket, codec, to, stores[i], changes[i]);
      OpsAtSnoc(stores, changes, i);
      StreamSnoc(codec, to, OpsAt(stores[..i], changes[..i]), OpFor(stores[i], changes[i]));
    }
    assert changes[..|changes|] == changes && stores[..|stores|] == stores;
  }

  /** One turn of the loop of LocalMonitor, against what is still to come. */
  lemma LocalTurn(user: string, q: seq<FileChange>, turns: seq<Moment<FileChange>>)
    requires turns != []
    ensures var q' := q + turns[0].pushed;
      var ops := DrainOps(KeyedChanges(user, q), KeyedTurns(user, turns));
      var later := DrainOps(KeyedChanges(user, q'[Min(1, |q'|)..]), KeyedTurns(user, turns[1..]));
      && DrainRest(q, turns) == DrainRest(q'[Min(1, |q'|)..], turns[1..])
      && (q' == [] ==> ops == later)
      && (q' != [] ==>
            ops == [OpFor(turns[0].store, Change(Key(user, q'[0].filename), q'[0].changeType))] + later)
  {
    hide OpFor, KeyedChanges;
    var q' := q + turns[0].pushed;
    KeyedConcat(user, q, turns[0].pushed);
    KeyedFirst(user, q');
    KeyedTurnsFirst(user, turns);
  }

  lemma KeyedConcat(user: string, a: seq<FileChange>, b: seq<FileChange>)
    ensures KeyedChanges(user, a) + KeyedChanges(user, b) == KeyedChanges(user, a + b)
  {}

  lemma KeyedFirst(user: string, q: seq<FileChange>)
    ensures |KeyedChanges(user, q)| == |q|
    ensures KeyedChanges(user, q)[Min(1, |q|)..] == KeyedChanges(user, q[Min(1, |q|)..])
    ensures q != [] ==> KeyedChanges(user, q)[0] == Change(Key(user, q[0].filename), q[0].changeType)
  {}

  lemma KeyedTurnsFirst(user: string, turns: seq<Moment<FileChange>>)
    requires turns != []
    ensures KeyedTurns(user, turns) != []
    ensures KeyedTurns(user, turns)[0] == Moment(KeyedChanges(user, turns[0].pushed), turns[0].store)
    ensures KeyedTurns(user, turns)[1..] == KeyedTurns(user, turns[1..])
  {}

  class LocalMonitor {
    const socket: TCPSocket
    const codec: Codec
    const user: string
    const changeQueue: AtomicQueue<FileChange>

    constructor (socket: TCPSocket, codec: Codec, user: string, changeQueue: AtomicQueue<FileChange>)
      ensures this.socket == socket && this.codec == codec && this.user == user && this.changeQueue == changeQueue
    {
      this.socket, this.codec, this.user, this.changeQueue := socket, codec, user, changeQueue;
    }

    method InitialSync(stores: seq<Store>, listing: seq<string>)
      requires socket.Reliable() && socket.open && |stores| == |listing|
      modifies socket
      ensures socket.Reliable() && socket.open && socket.incoming == old(socket.incoming)
      ensures socket.outgoing == old(socket.outgoing)
        + StreamOf(codec, ToDevice(user), OpsAt(stores, Created(user, listing)), CHUNK)
    {
      SendAll(socket, codec, ToDevice(user), stores, Created(user, listing));
    }

    /**
     * The whole listing, then at most one queued change per turn of the loop until it is told to stop,
     * with everybody else at work: `stores` are the contents of the server while the listing is sent, and
     * before each turn others have pushed changes and written files.
     */
    method MonitorChanges(stores: seq<Store>, listing: seq<string>, turns: seq<Moment<FileChange>>)
      requires socket.Reliable() && socket.open && |stores| == |listing|
      modifies socket, changeQueue
      ensures socket.Reliable() && socket.open && socket.incoming == old(socket.incoming)
      ensures changeQueue.items == DrainRest(old(changeQueue.items), turns)
      ensures socket.outgoing == old(socket.outgoing) + StreamOf(codec, ToDevice(user),
        OpsAt(stores, Created(user, listing))
          + DrainOps(KeyedChanges(user, old(changeQueue.items)), KeyedTurns(user, turns)), CHUNK)
    {
      hide OpMessages, OpFor, OpsAt, StreamOf, SerializeAll, KeyedChanges, KeyedTurns, Created, DrainOps, DrainRest;
      ghost var start, q := socket.outgoing, changeQueue.items;
      InitialSync(stores, listing);
      ghost var sent := OpsAt(stores, Created(user, listing));
      ghost var goal := sent + DrainOps(KeyedChanges(user, q), KeyedTurns(user, turns));
      var fileChange := FileChange("", FileCreated);
      var turn := 0;
      while turn < |turns|
        invariant turn <= |turns|
        invariant socket.Reliable() && socket.open && socket.incoming == old(socket.incoming)
        invariant DrainRest(q, turns) == DrainRest(changeQueue.items, turns[turn..])
        invariant goal
          == sent + DrainOps(KeyedChanges(user, changeQueue.items), KeyedTurns(user, turns[turn..]))
        invariant socket.outgoing == start + StreamOf(codec, ToDevice(user), sent, CHUNK)
      {
        LocalTurn(user, changeQueue.items, turns[turn..]);
        assert turns[turn..][1..] == turns[turn + 1..];
        changeQueue.items := changeQueue.items + turns[turn].pushed;  // the others
        var popped;
        popped, fileChange := changeQueue.TryPop(fileChange);
        if popped {
          var c := Change(Key(user, fileChange.filename), fileChange.changeType);
          SendFileChange(socket, codec, ToDevice(user), turns[turn].store, c);
          ghost var op := OpFor(turns[turn].store, c);
          StreamSnoc(codec, ToDevice(user), sent, op);
          Append(start, StreamOf(codec, ToDevice(user), sent, CHUNK),
            SerializeAll(OpMessages(codec, ToDevice(user), op, CHUNK)));
          sent := sent + [op];
        }
        turn := turn + 1;
      }
      NoTurns(user, changeQueue.items, turns[turn..]);
      assert goal == sent;
    }
  }

  lemma NoTurns(user: string, q: seq<FileChange>, turns: seq<Moment<FileChange>>)
    requires turns == []
    ensures DrainOps(KeyedChanges(user, q), KeyedTurns(user, turns)) == [] && DrainRest(q, turns) == q
  {}

  function CreatedKeys(listing: seq<Key>): (cs: seq<Change>)
    ensures |cs| == |listing|
  {
    seq(|listing|, i requires 0 <= i < |listing| => Change(listing[i], FileCreated))
  }

  /** One turn of the loop of BackupMonitor: at most one queued change, then each list whose flag is up. */
  function TurnOps(store: Store, q: seq<Change>, ipsChanged: bool, nodesChanged: bool,
    ips: seq<string>, nodes: seq<Node>): seq<ReplicaOp>
  {
    (if q != [] then [OpFor(store, q[0])] else [])
    + ((if ipsChanged then [SendIps(ips)] else []) + (if nodesChanged then [SendNodes(nodes)] else []))
  }

  /** A turn of BackupMonitor also sees raised flags, the lists of the moment, and whether the socket is still alive. */
  datatype BackupTurn = BackupTurn(
    pushed: seq<Change>, store: Store, ipsUp: bool, nodesUp: bool, ips: seq<string>, nodes: seq<Node>, alive: bool)

  /** A turn lowers both flags; a dead socket ends the loop. */
  function Turns(q: seq<Change>, ipsChanged: bool, nodesChanged: bool, turns: seq<BackupTurn>): seq<ReplicaOp>
    decreases |turns|
  {
    if turns == [] then [] else
      var t := turns[0];
      var q' := q + t.pushed;
      TurnOps(t.store, q', ipsChanged || t.ipsUp, nodesChanged || t.nodesUp, t.ips, t.nodes)
      + if t.alive then Turns(q'[Min(1, |q'|)..], false, false, turns[1..]) else []
  }

  function TurnsRest(q: seq<Change>, turns: seq<BackupTurn>): seq<Change>
    decreases |turns|
  {
    if turns == [] then q else
      var q' := q + turns[0].pushed;
      if turns[0].alive then TurnsRest(q'[Min(1, |q'|)..], turns[1..]) else q'[Min(1, |q'|)..]
  }

  /** The turns the loop takes: up to the first that finds the socket dead. */
  function TurnsTaken(turns: seq<BackupTurn>): seq<BackupTurn>
    decreases |turns|
  {
    if turns == [] then [] else [turns[0]] + if turns[0].alive then TurnsTaken(turns[1..]) else []
  }

  predicate StaysAlive(turns: seq<BackupTurn>) {
    forall t | t in turns :: t.alive
  }

  class BackupMonitor {
    const socket: TCPSocket
    const codec: Codec
    const changeQueue: AtomicQueue<Change>
    var ipsChanged: bool
    var nodesChanged: bool

    constructor (socket: TCPSocket, codec: Codec, changeQueue: AtomicQueue<Change>)
      ensures this.socket == socket && this.codec == codec && this.changeQueue == changeQueue
      ensures ipsChanged && nodesChanged
    {
      this.socket, this.codec, this.changeQueue := socket, codec, changeQueue;
      ipsChanged, nodesChanged := true, true;
    }

    method SendOp(op: ReplicaOp)
      requires socket.Reliable() && socket.open
      requires op.SendIps? || op.SendNodes?
      modifies socket
      ensures socket.Reliable() && socket.open && socket.incoming == old(socket.incoming)
      ensures socket.outgoing == old(socket.outgoing) + SerializeAll(OpMessages(codec, ToBackup, op, CHUNK))
    {
      hide SerializeMessage;
      var model := if op.SendIps? then ConnectedIps(op.ips) else ConnectedNodes(op.nodes);
      SendModelMessage(socket, codec, model);
      SerializeOne(ModelMessage(codec, model));
    }

    /** The loops over the user directories and over the files of each, as one listing. */
    method InitialSync(stores: seq<Store>, listing: seq<Key>)
      requires socket.Reliable() && socket.open && |stores| == |listing|
      modifies socket
      ensures socket.Reliable() && socket.open && socket.incoming == old(socket.incoming)
      ensures socket.outgoing == old(socket.outgoing)
        + StreamOf(codec, ToBackup, OpsAt(stores, CreatedKeys(listing)), CHUNK)
    {
      SendAll(socket, codec, ToBackup, stores, CreatedKeys(listing));
    }

    method PopAndSend(store: Store)
      requires socket.Reliable() && socket.open
      modifies socket, changeQueue
      ensures socket.Reliable() && socket.open && socket.incoming == old(socket.incoming)
      ensures changeQueue.items == old(changeQueue.items)[Min(1, |old(changeQueue.items)|)..]
      ensures socket.outgoing == old(socket.outgoing) + StreamOf(codec, ToBackup,
        if old(changeQueue.items) != [] then [OpFor(store, old(changeQueue.items)[0])] else [], CHUNK)
    {
      hide OpMessages, OpFor;
      var change := Change(Key("", ""), FileCreated);
      var popped;
      popped, change := changeQueue.TryPop(change);
      if popped {
        SendFileChange(socket, codec, ToBackup, store, change);
        StreamOfOne(codec, ToBackup, OpFor(store, change), CHUNK);
      }
    }

    method SendLists(ips: seq<string>, nodes: seq<Node>)
      requires socket.Reliable() && socket.open
      modifies socket, this`ipsChanged, this`nodesChanged
      ensures socket.Reliable() && socket.open && socket.incoming == old(socket.incoming)
      ensures !ipsChanged && !nodesChanged
      ensures socket.outgoing == old(socket.outgoing) + StreamOf(codec, ToBackup,
        (if old(ipsChanged) then [SendIps(ips)] else [])
          + (if old(nodesChanged) then [SendNodes(nodes)] else []), CHUNK)
    {
      hide OpMessages;
      ghost var first := if ipsChanged then [SendIps(ips)] else [];
      ghost var second := if nodesChanged then [SendNodes(nodes)] else [];
      StreamOfConcat(codec, ToBackup, first, second, CHUNK);
      StreamOfOne(codec, ToBackup, SendIps(ips), CHUNK);
      StreamOfOne(codec, ToBackup, SendNodes(nodes), CHUNK);
      if ipsChanged {
        SendOp(SendIps(ips));
        ipsChanged := false;
      }
      if nodesChanged {
        SendOp(SendNodes(nodes));
        nodesChanged := false;
      }
    }

    /** The body of the loop, after the others have had their turn. */
    method TakeTurn(t: BackupTurn)
      requires socket.Reliable() && socket.open
      modifies socket, changeQueue, this`ipsChanged, this`nodesChanged
      ensures socket.open == t.alive && socket.incoming == old(socket.incoming) && (t.alive ==> socket.Reliable())
      ensures !ipsChanged && !nodesChanged
      ensures changeQueue.items == old(changeQueue.items)[Min(1, |old(changeQueue.items)|)..]
      ensures socket.outgoing == old(socket.outgoing) + StreamOf(codec, ToBackup,
        TurnOps(t.store, old(changeQueue.items), old(ipsChanged), old(nodesChanged), t.ips, t.nodes), CHUNK)
    {
      hide StreamOf, TurnOps;
      ghost var start := socket.outgoing;
      TurnStream(codec, t.store, changeQueue.items, ipsChanged, nodesChanged, t.ips, t.nodes);
      PopAndSend(t.store);
      SendLists(t.ips, t.nodes);
      if !t.alive {
        socket.CloseConnection();
      }
    }

    /**
     * The whole listing, then turn after turn at most one queued change and each list whose flag is up,
     * until the loop is told to stop or finds the socket dead, with everybody else at work before each turn.
     */
    method MonitorChanges(stores: seq<Store>, listing: seq<Key>, turns: seq<BackupTurn>)
      requires socket.Reliable() && socket.open && |stores| == |listing|
      modifies socket, changeQueue, this`ipsChanged, this`nodesChanged
      ensures socket.open == StaysAlive(turns) && socket.incoming == old(socket.incoming)
      ensures turns != [] ==> !ipsChanged && !nodesChanged
      ensures changeQueue.items == TurnsRest(old(changeQueue.items), turns)
      ensures socket.outgoing == old(socket.outgoing) + StreamOf(codec, ToBackup,
        OpsAt(stores, CreatedKeys(listing))
          + Turns(old(changeQueue.items), old(ipsChanged), old(nodesChanged), turns), CHUNK)
    {
      hide StreamOf, OpsAt, TurnOps, CreatedKeys, Turns, TurnsRest;
      ghost var start, q := socket.outgoing, changeQueue.items;
      InitialSync(stores, listing);
      ghost var sent := OpsAt(stores, CreatedKeys(listing));
      ghost var goal := sent + Turns(q, ipsChanged, nodesChanged, turns);
      var turn := 0;
      assert turns[0..] == turns;
      while turn < |turns|
        invariant turn <= |turns|
        invariant socket.Reliable() && socket.open && socket.incoming == old(socket.incoming)
        invariant turn > 0 ==> !ipsChanged && !nodesChanged
        invariant forall i | 0 <= i < turn :: turns[i].alive
        invariant TurnsRest(q, turns) == TurnsRest(changeQueue.items, turns[turn..])
        invariant goal == sent + Turns(changeQueue.items, ipsChanged, nodesChanged, turns[turn..])
        invariant socket.outgoing == start + StreamOf(codec, ToBackup, sent, CHUNK)
      {
        var t := turns[turn];
        TurnsStep(changeQueue.items, ipsChanged, nodesChanged, turns[turn..]);
        assert turns[turn..][1..] == turns[turn + 1..];
        changeQueue.items := changeQueue.items + t.pushed;  // the others
        ipsChanged, nodesChanged := ipsChanged || t.ipsUp, nodesChanged || t.nodesUp;
        ghost var now := TurnOps(t.store, changeQueue.items, ipsChanged, nodesChanged, t.ips, t.nodes);
        ghost var rest := changeQueue.items[Min(1, |changeQueue.items|)..];
        ghost var later := if t.alive then Turns(rest, false, false, turns[turn + 1..]) else [];
        TakeTurn(t);
        StreamOfConcat(codec, ToBackup, sent, now, CHUNK);
        Append(start, StreamOf(codec, ToBackup, sent, CHUNK), StreamOf(codec, ToBackup, now, CHUNK));
        AppendOps(sent, now, later);
        sent := sent + now;
        if !t.alive {
          assert t in turns && !StaysAlive(turns);
          return;
        }
        turn := turn + 1;
      }
      TurnsEnd(changeQueue.items, ipsChanged, nodesChanged, turns[turn..]);
      AppendOps(sent, [], []);
    }
  }

  lemma AppendOps(a: seq<ReplicaOp>, b: seq<ReplicaOp>, c: seq<ReplicaOp>)
    ensures (a + b) + c == a + (b + c)
    ensures a + [] == a && b + [] == b
  {}

  lemma TurnsStep(q: seq<Change>, ipsChanged: bool, nodesChanged: bool, turns: seq<BackupTurn>)
    requires turns != []
    ensures var t := turns[0];
      var q' := q + t.pushed;
      && Turns(q, ipsChanged, nodesChanged, turns)
        == TurnOps(t.store, q', ipsChanged || t.ipsUp, nodesChanged || t.nodesUp, t.ips, t.nodes)
          + (if t.alive then Turns(q'[Min(1, |q'|)..], false, false, turns[1..]) else [])
      && TurnsRest(q, turns)
        == if t.alive then TurnsRest(q'[Min(1, |q'|)..], turns[1..]) else q'[Min(1, |q'|)..]
  {
    hide TurnOps;
  }

  lemma Append(a: Bytes, b: Bytes, c: Bytes)
    ensures (a + b) + c == a + (b + c)
  {}

  lemma TurnsEnd(q: seq<Change>, ipsChanged: bool, nodesChanged: bool, turns: seq<BackupTurn>)
    requires turns == []
    ensures Turns(q, ipsChanged, nodesChanged, turns) == [] && TurnsRest(q, turns) == q
  {}

  lemma TurnStream(codec: Codec, store: Store, q: seq<Change>, ipsChanged: bool, nodesChanged: bool,
    ips: seq<string>, nodes: seq<Node>)
    ensures StreamOf(codec, ToBackup, TurnOps(store, q, ipsChanged, nodesChanged, ips, nodes), CHUNK)
      == StreamOf(codec, ToBackup, if q != [] then [OpFor(store, q[0])] else [], CHUNK)
      + StreamOf(codec, ToBackup,
          (if ipsChanged then [SendIps(ips)] else []) + (if nodesChanged then [SendNodes(nodes)] else []), CHUNK)
  {
    hide OpFor;
    StreamOfConcat(codec, ToBackup, if q != [] then [OpFor(store, q[0])] else [],
      (if ipsChanged then [SendIps(ips)] else []) + (if nodesChanged then [SendNodes(nodes)] else []), CHUNK);
  }

  lemma SerializeNothing()
    ensures SerializeAll([]) == []
  {}

  lemma MonitorTurn(c: Codec, v: BackupView, stream: Bytes)
    requires stream != [] && !v.crashed
    ensures var r := ReceiveOne(stream);
      var h := Dispatch(c, v, r.message, r.rest);
      && |h.rest| < |stream|
      && Monitor(c, v, stream) == Monitored(Monitor(c, h.view, h.rest).view, h.reply + Monitor(c, h.view, h.rest).reply)
  {
    hide ReceiveOne, Dispatch;
  }

  lemma MonitorOver(c: Codec, v: BackupView, stream: Bytes)
    requires stream == [] || v.crashed
    ensures Monitor(c, v, stream) == Monitored(v, [])
  {}

  class BackupMessageHandler {
    const socket: TCPSocket
    const codec: Codec
    var username: Option<string>
    var store: Store
    var workingDirectory: map<string, Bytes>
    var connectedIps: seq<string>
    var connectedNodes: seq<Node>
    var serverId: int
    var crashed: bool

    constructor (socket: TCPSocket, codec: Codec)
      ensures this.socket == socket && this.codec == codec
      ensures View() == BackupView(None, map[], map[], [], [], 0, false)
    {
      this.socket, this.codec := socket, codec;
      username, store, workingDirectory := None, map[], map[];
      connectedIps, connectedNodes, serverId, crashed := [], [], 0, false;
    }

    function View(): BackupView
      reads this
    {
      BackupView(username, store, workingDirectory, connectedIps, connectedNodes, serverId, crashed)
    }

    method HandleInitSendFile(name: string, size: nat)
      requires socket.Reliable()
      modifies this, socket
      ensures socket.Reliable() && socket.outgoing == old(socket.outgoing)
      ensures var w := ReceiveFile(size, old(socket.incoming));
        && View() == old(View()).WithFile(name, w.content)
        && socket.incoming == w.rest && socket.open == (old(socket.open) && !w.closed)
    {
      var content := [];
      if size > 0 {
        var complete;
        content, complete := WriteFile(socket);
      }
      match username {
        case Some(user) => store := store[Key(user, name) := content];
        case None => workingDirectory := workingDirectory[name := content];
      }
    }

    /** On a closed descriptor nothing leaves any more. */
    method HandleInitReceiveFile(name: string)
      requires socket.Reliable()
      modifies socket
      ensures socket.Reliable() && socket.open == old(socket.open) && socket.incoming == old(socket.incoming)
      ensures socket.open ==>
        socket.outgoing == old(socket.outgoing) + SerializeAll(Download(codec, View(), name))
    {
      if socket.open {
        match View().FileAt(name) {
          case Some(content) =>
            var file := new File(content);
            SendFileMessage(socket, codec, name, file);
          case None =>
            SendMessage(socket, PureMessage(ERROR));
            SerializeOne(PureMessage(ERROR));
        }
      }
    }

    method HandleDeleteFile(name: string)
      modifies this
      ensures View() == old(View()).WithoutFile(name)
    {
      match username {
        case Some(user) => store := store - {Key(user, name)};
        case None => workingDirectory := workingDirectory - {name};
      }
    }

    method HandleMessage(message: Message)
      requires socket.Reliable()
      modifies this, socket
      ensures var h := Dispatch(codec, old(View()), message, old(socket.incoming));
        && socket.Reliable() && View() == h.view && socket.incoming == h.rest
        && socket.open == (old(socket.open) && !h.closed)
        && (socket.open ==> socket.outgoing == old(socket.outgoing) + SerializeAll(h.reply))
    {
      hide SerializeMessage, WriteLoop, FileMessages, Download;
      var t := message.header.messageType;
      if t == INIT_SEND_FILE {
        match codec.decode(t, message.data) {
          case Some(InitSendFile(name, size)) => HandleInitSendFile(name, size);
          case _ => crashed := true;
        }
      } else if t == INIT_RECEIVE_FILE {
        match codec.decode(t, message.data) {
          case Some(InitReceiveFile(name)) => HandleInitReceiveFile(name);
          case _ => crashed := true;
        }
      } else if t == DELETE_FILE {
        match codec.decode(t, message.data) {
          case Some(DeleteFile(name)) => HandleDeleteFile(name);
          case _ => crashed := true;
        }
      } else {
        HandleOtherMessage(message);
      }
    }

    method HandleOtherMessage(message: Message)
      requires message.header.messageType !in {INIT_SEND_FILE, INIT_RECEIVE_FILE, DELETE_FILE}
      modifies this
      ensures View() == Dispatch(codec, old(View()), message, []).view
    {
      var t := message.header.messageType;
      if t == INIT_BACKUP_DATA {
        match codec.decode(t, message.data) {
          case Some(InitBackupData(user)) => username := Some(user);
          case _ => crashed := true;
        }
      } else if t == CONNECTED_IPS {
        match codec.decode(t, message.data) {
          case Some(ConnectedIps(ips)) => connectedIps := ips;
          case _ => crashed := true;
        }
      } else if t == CONNECTED_NODES {
        match codec.decode(t, message.data) {
          case Some(ConnectedNodes(nodes)) => connectedNodes := nodes;
          case _ => crashed := true;
        }
      } else if t == SERVER_ID {
        match codec.decode(t, message.data) {
          case Some(ServerId(id)) => serverId := id;
          case _ => crashed := true;
        }
      } else if t != ALIVE {
        crashed := true;
      }
    }

    /** monitorMessages until the peer's bytes are used up, however the reads cut them. */
    method MonitorMessages()
      requires socket.Reliable()
      modifies this, socket
      ensures socket.Reliable()
      ensures var m := Monitor(codec, old(View()), old(socket.incoming));
        && View() == m.view
        && (socket.open ==> socket.outgoing == old(socket.outgoing) + SerializeAll(m.reply))
      ensures socket.incoming == [] || crashed
    {
      hide Dispatch, SerializeMessage, ReceiveOne, SerializeAll, Monitor;
      ghost var goal := Monitor(codec, View(), socket.incoming);
      ghost var replied := [];
      SerializeNothing();
      while socket.incoming != [] && !crashed
        invariant socket.Reliable()
        invariant var m := Monitor(codec, View(), socket.incoming);
          goal.view == m.view && goal.reply == replied + m.reply
        invariant socket.open ==> socket.outgoing == old(socket.outgoing) + SerializeAll(replied)
        decreases |socket.incoming|
      {
        ghost var stream, v := socket.incoming, View();
        MonitorTurn(codec, v, stream);
        var message := ReceiveMessage(socket);
        ghost var rest := socket.incoming;
        HandleMessage(message);
        ghost var h := Dispatch(codec, v, message, rest);
        SerializeAllConcat(replied, h.reply);
        assert replied + (h.reply + Monitor(codec, h.view, h.rest).reply)
          == (replied + h.reply) + Monitor(codec, h.view, h.rest).reply;
        replied := replied + h.reply;
      }
      MonitorOver(codec, View(), socket.incoming);
      assert replied + [] == replied;
    }
  }

  /**
   * Both ends of a backup's socket, each with its own kernel cutting the bytes up and everybody else at
   * work: the backup ends up with what the monitor meant to send, user by user, and has answered nothing.
   */
  method Replicate(monitor: BackupMonitor, handler: BackupMessageHandler,
    stores: seq<Store>, listing: seq<Key>, turns: seq<BackupTurn>)
    requires monitor.socket != handler.socket && monitor.codec == handler.codec && Faithful(monitor.codec)
    requires monitor.socket.Reliable() && monitor.socket.open && monitor.socket.outgoing == []
    requires handler.socket.Reliable() && handler.socket.open && handler.socket.incoming == []
    requires !handler.crashed && |stores| == |listing|
    requires var ops := OpsAt(stores, CreatedKeys(listing))
        + Turns(monitor.changeQueue.items, monitor.ipsChanged, monitor.nodesChanged, turns);
      forall op | op in ops :: SendableOp(monitor.codec, op)
    modifies monitor, monitor.socket, monitor.changeQueue, handler, handler.socket
    ensures handler.View().ToDirect() == ApplyAll(old(handler.View()).ToDirect(),
      OpsAt(stores, CreatedKeys(listing))
        + Turns(old(monitor.changeQueue.items), old(monitor.ipsChanged), old(monitor.nodesChanged), turns))
    ensures handler.workingDirectory == old(handler.workingDirectory) && !handler.crashed
    ensures handler.socket.incoming == []
    ensures handler.socket.open ==> handler.socket.outgoing == old(handler.socket.outgoing)
  {
    hide StreamOf, OpsAt, Turns, CreatedKeys, Monitor, SendableOp, ApplyAll, SerializeAll;
    ghost var ops := OpsAt(stores, CreatedKeys(listing))
      + Turns(monitor.changeQueue.items, monitor.ipsChanged, monitor.nodesChanged, turns);
    ghost var v := handler.View();
    monitor.MonitorChanges(stores, listing, turns);
    assert monitor.socket.outgoing == StreamOf(monitor.codec, ToBackup, ops, CHUNK);
    handler.socket.incoming := monitor.socket.outgoing;
    StreamMeansOperations(monitor.codec, ToBackup, v, ops, CHUNK);
    SerializeNothing();
    handler.MonitorMessages();
  }
}
