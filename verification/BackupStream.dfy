/**
 * The message stream from a primary to a backup: the sending side of backupMonitor.hpp and
 * the dispatch of backupMessageHandler.hpp with its current-user register.
 */
module BackupStream {
  import opened Bytes
  import opened Header
  import opened Messages
  import opened FileChunks
  import opened Payloads
  import opened FileTransfer

  datatype Key = Key(user: string, name: string)

  type Store = map<Key, Bytes>

  // ---- what the primary means ----

  datatype ReplicaOp =
    | Put(key: Key, content: Bytes)
    | Vanished(user: string)        // a created file that was gone when its turn came
    | Remove(key: Key)
    | SendIps(ips: seq<string>)
    | SendNodes(nodes: seq<Node>)
    | SendId(id: int)

  /** The state the stream is about, without the register that decodes it. */
  datatype Direct = Direct(store: Store, ips: seq<string>, nodes: seq<Node>, serverId: int)

  function Apply(d: Direct, op: ReplicaOp): Direct {
    match op
    case Put(key, content) => d.(store := d.store[key := content])
    case Vanished(_) => d
    case Remove(key) => d.(store := d.store - {key})
    case SendIps(ips) => d.(ips := ips)
    case SendNodes(nodes) => d.(nodes := nodes)
    case SendId(id) => d.(serverId := id)
  }

  function ApplyAll(d: Direct, ops: seq<ReplicaOp>): Direct
    decreases |ops|
  {
    if ops == [] then d else ApplyAll(Apply(d, ops[0]), ops[1..])
  }

  /** A backup's socket carries every user; a device's socket belongs to one user. */
  datatype Channel = ToBackup | ToDevice(user: string)

  /** The message that sets the current-user register, on the channel that needs it. */
  function Prefix(c: Codec, to: Channel, user: string): seq<Message> {
    match to
    case ToBackup => [ModelMessage(c, InitBackupData(user))]
    case ToDevice(_) => []
  }

  function OpMessages(c: Codec, to: Channel, op: ReplicaOp, chunkSize: nat): seq<Message>
    requires chunkSize > 0
  {
    match op
    case Put(key, content) => Prefix(c, to, key.user) + FileMessages(c, key.name, content, chunkSize)
    case Vanished(user) => Prefix(c, to, user)
    case Remove(key) => Prefix(c, to, key.user) + [ModelMessage(c, DeleteFile(key.name))]
    case SendIps(ips) => [ModelMessage(c, ConnectedIps(ips))]
    case SendNodes(nodes) => [ModelMessage(c, ConnectedNodes(nodes))]
    case SendId(id) => [ModelMessage(c, ServerId(id))]
  }

  function StreamOf(c: Codec, to: Channel, ops: seq<ReplicaOp>, chunkSize: nat): Bytes
    requires chunkSize > 0
    decreases |ops|
  {
    if ops == [] then [] else
      SerializeAll(OpMessages(c, to, ops[0], chunkSize)) + StreamOf(c, to, ops[1..], chunkSize)
  }

  /** The operations a channel may carry; a device's socket carries only its user's files. */
  predicate Addressed(to: Channel, op: ReplicaOp) {
    match to
    case ToBackup => true
    case ToDevice(u) =>
      match op {
        case Put(key, _) => key.user == u
        case Vanished(user) => user == u
        case Remove(key) => key.user == u
        case _ => false
      }
  }

  predicate SendableOp(c: Codec, op: ReplicaOp) {
    match op
    case Put(key, content) =>
      Sendable(c, InitBackupData(key.user)) && Sendable(c, InitSendFile(key.name, |content|))
    case Vanished(user) => Sendable(c, InitBackupData(user))
    case Remove(key) => Sendable(c, InitBackupData(key.user)) && Sendable(c, DeleteFile(key.name))
    case SendIps(ips) => Sendable(c, ConnectedIps(ips))
    case SendNodes(nodes) => Sendable(c, ConnectedNodes(nodes))
    case SendId(id) => Sendable(c, ServerId(id))
  }

  // ---- what the backup does with bytes ----

  /** `user` is the register; files received before it is first set land in the working directory. */
  datatype BackupView = BackupView(
    user: Option<string>, store: Store, workingDirectory: map<string, Bytes>,
    ips: seq<string>, nodes: seq<Node>, serverId: int, crashed: bool)
  {
    function FileAt(name: string): Option<Bytes> {
      match user
      case Some(u) => if Key(u, name) in store then Some(store[Key(u, name)]) else None
      case None => if name in workingDirectory then Some(workingDirectory[name]) else None
    }

    function WithFile(name: string, content: Bytes): BackupView {
      match user
      case Some(u) => this.(store := store[Key(u, name) := content])
      case None => this.(workingDirectory := workingDirectory[name := content])
    }

    function WithoutFile(name: string): BackupView {
      match user
      case Some(u) => this.(store := store - {Key(u, name)})
      case None => this.(workingDirectory := workingDirectory - {name})
    }

    function ToDirect(): Direct {
      Direct(store, ips, nodes, serverId)
    }
  }

  datatype Handled = Handled(view: BackupView, rest: Bytes, reply: seq<Message>, closed: bool)

  /**
   * handleMessage on one message, with the stream behind it.  A payload that does not parse
   * and a message type a backup does not know throw outside every try block: the process ends.
   */
  function Dispatch(c: Codec, v: BackupView, m: Message, rest: Bytes): (h: Handled)
    ensures |h.rest| <= |rest|
  {
    var t := m.header.messageType;
    var crash := Handled(v.(crashed := true), rest, [], false);
    if t == INIT_SEND_FILE then
      match c.decode(t, m.data) {
        case Some(InitSendFile(name, size)) =>
          var w := ReceiveFile(size, rest);
          Handled(v.WithFile(name, w.content), w.rest, [], w.closed)
        case _ => crash
      }
    else if t == INIT_RECEIVE_FILE then
      match c.decode(t, m.data) {
        case Some(InitReceiveFile(name)) =>
          Handled(v, rest, Download(c, v, name), false)
        case _ => crash
      }
    else if t == DELETE_FILE then
      match c.decode(t, m.data) {
        case Some(DeleteFile(name)) => Handled(v.WithoutFile(name), rest, [], false)
        case _ => crash
      }
    else if t == INIT_BACKUP_DATA then
      match c.decode(t, m.data) {
        case Some(InitBackupData(user)) => Handled(v.(user := Some(user)), rest, [], false)
        case _ => crash
      }
    else if t == CONNECTED_IPS then
      match c.decode(t, m.data) {
        case Some(ConnectedIps(ips)) => Handled(v.(ips := ips), rest, [], false)
        case _ => crash
      }
    else if t == CONNECTED_NODES then
      match c.decode(t, m.data) {
        case Some(ConnectedNodes(nodes)) => Handled(v.(nodes := nodes), rest, [], false)
        case _ => crash
      }
    else if t == SERVER_ID then
      match c.decode(t, m.data) {
        case Some(ServerId(id)) => Handled(v.(serverId := id), rest, [], false)
        case _ => crash
      }
    else if t == ALIVE then Handled(v, rest, [], false)
    else crash
  }

  /** The answer to INIT_RECEIVE_FILE: the file, or an error when it does not exist. */
  function Download(c: Codec, v: BackupView, name: string): seq<Message> {
    match v.FileAt(name)
    case Some(content) => FileMessages(c, name, content, DEFAULT_FILE_CHUNK_SIZE)
    case None => [PureMessage(ERROR)]
  }

  datatype Monitored = Monitored(view: BackupView, reply: seq<Message>)

  /** monitorMessages until the stream is used up or the process has ended. */
  function Monitor(c: Codec, v: BackupView, stream: Bytes): Monitored
    decreases |stream|
  {
    if stream == [] || v.crashed then Monitored(v, []) else
      var r := ReceiveOne(stream);
      var h := Dispatch(c, v, r.message, r.rest);
      var later := Monitor(c, h.view, h.rest);
      Monitored(later.view, h.reply + later.reply)
  }

  // ---- the stream means what the primary meant ----

  lemma MonitorOne(c: Codec, v: BackupView, m: Message, rest: Bytes)
    requires WellFormed(m) && !v.crashed
    ensures var h := Dispatch(c, v, m, rest);
      var later := Monitor(c, h.view, h.rest);
      Monitor(c, v, SerializeMessage(m) + rest) == Monitored(later.view, h.reply + later.reply)
  {
    hide SerializeMessage, ReceiveOne, Dispatch;
    FramingRoundTrip(m, rest);
  }

  /** One model message whose effect does not read on in the stream. */
  lemma MonitorModel(c: Codec, v: BackupView, p: Payload, rest: Bytes)
    requires Faithful(c) && Sendable(c, p) && !v.crashed
    requires !p.InitSendFile? && !p.InitReceiveFile?
    ensures Monitor(c, v, SerializeMessage(ModelMessage(c, p)) + rest) == Monitor(c, ModelEffect(v, p), rest)
  {
    hide SerializeMessage, Monitor;
    var m := ModelMessage(c, p);
    ModelMessageReads(c, p);
    MonitorOne(c, v, m, rest);
    assert Dispatch(c, v, m, rest) == Handled(ModelEffect(v, p), rest, [], false);
  }

  function ModelEffect(v: BackupView, p: Payload): BackupView {
    match p
    case DeleteFile(name) => v.WithoutFile(name)
    case InitBackupData(user) => v.(user := Some(user))
    case ConnectedIps(ips) => v.(ips := ips)
    case ConnectedNodes(nodes) => v.(nodes := nodes)
    case ServerId(id) => v.(serverId := id)
    case _ => v
  }

  /** A whole file transfer in the middle of the stream. */
  lemma MonitorFile(c: Codec, v: BackupView, name: string, content: Bytes, chunkSize: nat, rest: Bytes)
    requires Faithful(c) && Sendable(c, InitSendFile(name, |content|)) && !v.crashed && chunkSize > 0
    ensures Monitor(c, v, SerializeAll(FileMessages(c, name, content, chunkSize)) + rest)
      == Monitor(c, v.WithFile(name, content), rest)
  {
    hide SerializeMessage, Monitor, ReceiveOne, ReceiveFile;
    var m := ModelMessage(c, InitSendFile(name, |content|));
    var ms := FileMessages(c, name, content, chunkSize);
    var packets := SerializeAll(ms[1..]) + rest;
    assert SerializeAll(ms) + rest == SerializeMessage(m) + packets;
    ModelMessageReads(c, InitSendFile(name, |content|));
    FileRoundTrip(c, name, content, chunkSize, rest);
    FramingRoundTrip(m, packets);
    MonitorOne(c, v, m, packets);
  }

  /** What one operation does to the view, register included. */
  function OpEffect(v: BackupView, op: ReplicaOp): BackupView {
    match op
    case Put(key, content) => v.(user := Some(key.user), store := v.store[key := content])
    case Vanished(user) => v.(user := Some(user))
    case Remove(key) => v.(user := Some(key.user), store := v.store - {key})
    case SendIps(ips) => v.(ips := ips)
    case SendNodes(nodes) => v.(nodes := nodes)
    case SendId(id) => v.(serverId := id)
  }

  /** The receiver's register suits the channel. */
  predicate Ready(to: Channel, v: BackupView) {
    !v.crashed && (to.ToDevice? ==> v.user == Some(to.user))
  }

  lemma MonitorPrefix(c: Codec, to: Channel, v: BackupView, user: string, rest: Bytes)
    requires Faithful(c) && Sendable(c, InitBackupData(user)) && Ready(to, v)
    requires to.ToDevice? ==> user == to.user
    ensures Monitor(c, v, SerializeAll(Prefix(c, to, user)) + rest) == Monitor(c, v.(user := Some(user)), rest)
  {
    hide SerializeMessage, Monitor;
    match to {
      case ToBackup =>
        var m := ModelMessage(c, InitBackupData(user));
        SerializeOne(m);
        MonitorModel(c, v, InitBackupData(user), rest);
      case ToDevice(_) =>
        assert SerializeAll(Prefix(c, to, user)) + rest == rest;
    }
  }

  lemma SerializeOne(m: Message)
    ensures SerializeAll([m]) == SerializeMessage(m)
  {
    assert [m][1..] == [];
  }

  lemma MonitorOp(c: Codec, to: Channel, v: BackupView, op: ReplicaOp, chunkSize: nat, rest: Bytes)
    requires Faithful(c) && SendableOp(c, op) && Ready(to, v) && Addressed(to, op) && chunkSize > 0
    ensures Monitor(c, v, SerializeAll(OpMessages(c, to, op, chunkSize)) + rest) == Monitor(c, OpEffect(v, op), rest)
  {
    hide SerializeMessage, SerializeAll, Monitor, FileMessages, Prefix;
    match op {
      case Put(key, content) =>
        var body := FileMessages(c, key.name, content, chunkSize);
        SerializeAllConcat(Prefix(c, to, key.user), body);
        assert SerializeAll(OpMessages(c, to, op, chunkSize)) + rest
          == SerializeAll(Prefix(c, to, key.user)) + (SerializeAll(body) + rest);
        MonitorPrefix(c, to, v, key.user, SerializeAll(body) + rest);
        MonitorFile(c, v.(user := Some(key.user)), key.name, content, chunkSize, rest);
      case Vanished(user) =>
        MonitorPrefix(c, to, v, user, rest);
      case Remove(key) =>
        var m := ModelMessage(c, DeleteFile(key.name));
        SerializeAllConcat(Prefix(c, to, key.user), [m]);
        SerializeOne(m);
        assert SerializeAll(OpMessages(c, to, op, chunkSize)) + rest
          == SerializeAll(Prefix(c, to, key.user)) + (SerializeMessage(m) + rest);
        MonitorPrefix(c, to, v, key.user, SerializeMessage(m) + rest);
        MonitorModel(c, v.(user := Some(key.user)), DeleteFile(key.name), rest);
      case SendIps(ips) =>
        SerializeOne(ModelMessage(c, ConnectedIps(ips)));
        MonitorModel(c, v, ConnectedIps(ips), rest);
      case SendNodes(nodes) =>
        SerializeOne(ModelMessage(c, ConnectedNodes(nodes)));
        MonitorModel(c, v, ConnectedNodes(nodes), rest);
      case SendId(id) =>
        SerializeOne(ModelMessage(c, ServerId(id)));
        MonitorModel(c, v, ServerId(id), rest);
    }
  }

  lemma MonitorNothing(c: Codec, v: BackupView)
    ensures Monitor(c, v, []) == Monitored(v, [])
  {}

  lemma OpEffectIsApply(to: Channel, v: BackupView, op: ReplicaOp)
    requires Ready(to, v) && Addressed(to, op)
    ensures OpEffect(v, op).ToDirect() == Apply(v.ToDirect(), op)
    ensures OpEffect(v, op).workingDirectory == v.workingDirectory
    ensures Ready(to, OpEffect(v, op))
  {}

  /**
   * The receiver of the byte stream of any operations, files cut in packets of any size, holds
   * what applying the user-tagged operations directly gives.  A backup does so whatever its
   * register held before, because each operation on the stream sets it first.  It answers
   * nothing and writes no file outside the users' directories.
   */
  lemma {:induction false} StreamMeansOperations(
    c: Codec, to: Channel, v: BackupView, ops: seq<ReplicaOp>, chunkSize: nat)
    requires Faithful(c) && chunkSize > 0 && Ready(to, v)
    requires forall op | op in ops :: SendableOp(c, op) && Addressed(to, op)
    ensures var m := Monitor(c, v, StreamOf(c, to, ops, chunkSize));
      && m.view.ToDirect() == ApplyAll(v.ToDirect(), ops)
      && m.view.workingDirectory == v.workingDirectory
      && m.reply == [] && Ready(to, m.view)
    decreases |ops|
  {
    hide OpMessages, SendableOp, Monitor, OpEffect, Apply;
    if ops == [] {
      MonitorNothing(c, v);
    } else {
      assert ops[0] in ops;
      MonitorOp(c, to, v, ops[0], chunkSize, StreamOf(c, to, ops[1..], chunkSize));
      OpEffectIsApply(to, v, ops[0]);
      StreamMeansOperations(c, to, OpEffect(v, ops[0]), ops[1..], chunkSize);
    }
  }

  /**
   * Where a file lands: under the current user, and before any user was named in the working directory,
   * where it touches no user's files.  A delete goes by the same register.
   */
  lemma FilesGoByTheRegister(c: Codec, v: BackupView, name: string, content: Bytes, chunkSize: nat, rest: Bytes)
    requires Faithful(c) && Sendable(c, InitSendFile(name, |content|)) && Sendable(c, DeleteFile(name))
    requires !v.crashed && chunkSize > 0
    ensures var stored := if v.user.Some? then v.(store := v.store[Key(v.user.value, name) := content])
        else v.(workingDirectory := v.workingDirectory[name := content]);
      Monitor(c, v, SerializeAll(FileMessages(c, name, content, chunkSize)) + rest) == Monitor(c, stored, rest)
    ensures var removed := if v.user.Some? then v.(store := v.store - {Key(v.user.value, name)})
        else v.(workingDirectory := v.workingDirectory - {name});
      Monitor(c, v, SerializeMessage(ModelMessage(c, DeleteFile(name))) + rest) == Monitor(c, removed, rest)
  {
    hide Monitor, SerializeMessage, SerializeAll, FileMessages;
    MonitorFile(c, v, name, content, chunkSize, rest);
    MonitorModel(c, v, DeleteFile(name), rest);
  }

  // ---- messages a backup does not expect ----

  /** The types of message a backup knows that carry a model. */
  predicate CarriesModel(t: byte) {
    t in {5, 6, 9, 11, 12, 13, 14}
  }

  /** The process survives a message exactly when it is ALIVE or carries the model of its type. */
  lemma SurvivesExactlyWhen(c: Codec, v: BackupView, m: Message, rest: Bytes)
    requires !v.crashed
    ensures var t := m.header.messageType;
      var model := c.decode(t, m.data);
      (!Dispatch(c, v, m, rest).view.crashed)
        <==> t == 0 || (CarriesModel(t) && model.Some? && TypeOf(model.value) == t)
  {}

  /** ALIVE changes nothing, and a message the process does not survive changes nothing else. */
  lemma UnexpectedChangesNothing(c: Codec, v: BackupView, m: Message, rest: Bytes)
    requires !v.crashed
    ensures m.header.messageType == 0 ==> Dispatch(c, v, m, rest) == Handled(v, rest, [], false)
    ensures Dispatch(c, v, m, rest).view.crashed ==>
      Dispatch(c, v, m, rest).view == v.(crashed := true) && Dispatch(c, v, m, rest).reply == []
  {}

  /** Nothing that follows such a message on the stream has any effect. */
  lemma BadMessageEndsTheProcess(c: Codec, v: BackupView, m: Message, rest: Bytes)
    requires WellFormed(m) && !v.crashed && Dispatch(c, v, m, rest).view.crashed
    ensures Monitor(c, v, SerializeMessage(m) + rest) == Monitored(v.(crashed := true), [])
  {
    hide Dispatch, SerializeMessage;
    MonitorOne(c, v, m, rest);
    UnexpectedChangesNothing(c, v, m, rest);
  }

  // ---- downloads ----

  /**
   * A request for a file of the current user: the reply, read back, is that file, whole, and otherwise one
   * pure ERROR.  Nothing else changes.
   */
  lemma DownloadRoundTrip(c: Codec, v: BackupView, user: string, name: string, rest: Bytes, tail: Bytes)
    requires Faithful(c) && Sendable(c, InitReceiveFile(name)) && !v.crashed && v.user == Some(user)
    requires Key(user, name) in v.store ==> Sendable(c, InitSendFile(name, |v.store[Key(user, name)]|))
    ensures var h := Dispatch(c, v, ModelMessage(c, InitReceiveFile(name)), rest);
      && h.view == v && h.rest == rest && !h.closed
      && (Key(user, name) !in v.store ==>
            SerializeAll(h.reply) == [72, 3, 0, 0, 0, 0, 0, 0, 0, 1, 0, 0, 0, 1])
      && (Key(user, name) in v.store ==>
            var content := v.store[Key(user, name)];
            var r := ReceiveOne(SerializeAll(h.reply) + tail);
            && c.decode(r.message.header.messageType, r.message.data) == Some(InitSendFile(name, |content|))
            && ReceiveFile(|content|, r.rest) == Written(content, tail, true, false))
  {
    hide SerializeMessage, ReceiveOne, ReceiveFile, FileMessages;
    ModelMessageReads(c, InitReceiveFile(name));
    if Key(user, name) in v.store {
      FileRoundTrip(c, name, v.store[Key(user, name)], DEFAULT_FILE_CHUNK_SIZE, tail);
    } else {
      SerializeOne(PureMessage(ERROR));
      PureOnTheWire(ERROR);
    }
  }

  // ---- what an operation looks like on the wire ----

  function Types(ms: seq<Message>): seq<int>
    decreases |ms|
  {
    if ms == [] then [] else [ms[0].header.messageType as int] + Types(ms[1..])
  }

  lemma {:induction false} TypesConcat(a: seq<Message>, b: seq<Message>)
    ensures Types(a + b) == Types(a) + Types(b)
    decreases |a|
  {
    if a == [] {
      assert a + b == b;
    } else {
      assert (a + b)[1..] == a[1..] + b;
      TypesConcat(a[1..], b);
    }
  }

  lemma TypesOfOne(m: Message)
    ensures Types([m]) == [m.header.messageType as int]
  {
    assert [m][1..] == [];
  }

  lemma {:induction false} PacketTypes(chunks: seq<FileChunk>)
    ensures Types(RawMessages(chunks)) == seq(|chunks|, _ => 7)
    decreases |chunks|
  {
    if chunks != [] {
      PacketTypes(chunks[1..]);
      assert RawMessages(chunks)[1..] == RawMessages(chunks[1..]);
    }
  }

  /**
   * A file operation starts with the user it is about on a backup's socket and not on a device's; then the
   * announcement of a file and one packet for each of its chunks, nothing for a file that has vanished, or
   * the delete.  A list or an id is one message.
   */
  lemma OpTypes(c: Codec, to: Channel, op: ReplicaOp, chunkSize: nat)
    requires chunkSize > 0
    ensures var prefix := if to.ToBackup? then [11] else [];
      Types(OpMessages(c, to, op, chunkSize)) == match op {
        case Put(_, content) => prefix + ([5] + seq(TotalPackets(|content|, chunkSize), _ => 7))
        case Vanished(_) => prefix
        case Remove(_) => prefix + [9]
        case SendIps(_) => [12]
        case SendNodes(_) => [13]
        case SendId(_) => [14]
      }
  {
    hide Chunks, TotalPackets, Types;
    match op {
      case Put(key, content) =>
        PrefixTypes(c, to, key.user);
        TypesConcat(Prefix(c, to, key.user), FileMessages(c, key.name, content, chunkSize));
        TypesOfOne(ModelMessage(c, InitSendFile(key.name, |content|)));
        TypesConcat([ModelMessage(c, InitSendFile(key.name, |content|))], RawMessages(Chunks(content, chunkSize)));
        PacketTypes(Chunks(content, chunkSize));
        ChunkCount(content, chunkSize);
      case Vanished(user) => PrefixTypes(c, to, user);
      case Remove(key) =>
        PrefixTypes(c, to, key.user);
        TypesConcat(Prefix(c, to, key.user), [ModelMessage(c, DeleteFile(key.name))]);
        TypesOfOne(ModelMessage(c, DeleteFile(key.name)));
      case SendIps(ips) => TypesOfOne(ModelMessage(c, ConnectedIps(ips)));
      case SendNodes(nodes) => TypesOfOne(ModelMessage(c, ConnectedNodes(nodes)));
      case SendId(id) => TypesOfOne(ModelMessage(c, ServerId(id)));
    }
  }

  lemma PrefixTypes(c: Codec, to: Channel, user: string)
    ensures Types(Prefix(c, to, user)) == if to.ToBackup? then [11] else []
  {
    if to.ToBackup? { TypesOfOne(ModelMessage(c, InitBackupData(user))); }
  }

  // ---- streams grow at the end ----

  lemma {:induction false} StreamOfConcat(c: Codec, to: Channel, a: seq<ReplicaOp>, b: seq<ReplicaOp>, chunkSize: nat)
    requires chunkSize > 0
    ensures StreamOf(c, to, a + b, chunkSize) == StreamOf(c, to, a, chunkSize) + StreamOf(c, to, b, chunkSize)
    decreases |a|
  {
    if a == [] {
      assert a + b == b;
    } else {
      assert (a + b)[1..] == a[1..] + b;
      StreamOfConcat(c, to, a[1..], b, chunkSize);
    }
  }

  lemma StreamOfOne(c: Codec, to: Channel, op: ReplicaOp, chunkSize: nat)
    requires chunkSize > 0
    ensures StreamOf(c, to, [op], chunkSize) == SerializeAll(OpMessages(c, to, op, chunkSize))
  {
    assert [op][1..] == [];
  }

  // ---- files and lists on one stream ----

  predicate AboutFiles(op: ReplicaOp) {
    op.Put? || op.Vanished? || op.Remove?
  }

  /** The file operations among everything a primary sends to a backup. */
  function FileOps(ops: seq<ReplicaOp>): seq<ReplicaOp>
    decreases |ops|
  {
    if ops == [] then [] else (if AboutFiles(ops[0]) then [ops[0]] else []) + FileOps(ops[1..])
  }

  /** The updates of the lists and of the id. */
  function ListOps(ops: seq<ReplicaOp>): seq<ReplicaOp>
    decreases |ops|
  {
    if ops == [] then [] else (if AboutFiles(ops[0]) then [] else [ops[0]]) + ListOps(ops[1..])
  }

  lemma {:induction false} ListUpdatesDoNotTouchFiles(d: Direct, e: Direct, ops: seq<ReplicaOp>)
    requires d.store == e.store
    ensures ApplyAll(d, ops).store == ApplyAll(e, FileOps(ops)).store
    decreases |ops|
  {
    if ops != [] {
      if AboutFiles(ops[0]) {
        assert FileOps(ops)[1..] == FileOps(ops[1..]);
        ListUpdatesDoNotTouchFiles(Apply(d, ops[0]), Apply(e, ops[0]), ops[1..]);
      } else {
        assert FileOps(ops) == FileOps(ops[1..]);
        ListUpdatesDoNotTouchFiles(Apply(d, ops[0]), e, ops[1..]);
      }
    }
  }

  lemma {:induction false} FilesDoNotTouchLists(d: Direct, e: Direct, ops: seq<ReplicaOp>)
    requires d == e.(store := d.store)
    ensures ApplyAll(d, ops) == ApplyAll(e, ListOps(ops)).(store := ApplyAll(d, ops).store)
    decreases |ops|
  {
    if ops != [] {
      if AboutFiles(ops[0]) {
        assert ListOps(ops) == ListOps(ops[1..]);
        FilesDoNotTouchLists(Apply(d, ops[0]), e, ops[1..]);
      } else {
        assert ListOps(ops)[1..] == ListOps(ops[1..]);
        FilesDoNotTouchLists(Apply(d, ops[0]), Apply(e, ops[0]), ops[1..]);
      }
    }
  }

  lemma {:induction false} ApplyAllSnoc(d: Direct, ops: seq<ReplicaOp>, op: ReplicaOp)
    ensures ApplyAll(d, ops + [op]) == Apply(ApplyAll(d, ops), op)
    decreases |ops|
  {
    if ops == [] {
      assert ([] + [op])[1..] == [];
    } else {
      assert (ops + [op])[1..] == ops[1..] + [op];
      ApplyAllSnoc(Apply(d, ops[0]), ops[1..], op);
    }
  }

  // ---- the lists a receiver ends up with ----

  function LastIps(ops: seq<ReplicaOp>): Option<seq<string>> {
    if ops == [] then None
    else if ops[|ops| - 1].SendIps? then Some(ops[|ops| - 1].ips)
    else LastIps(ops[..|ops| - 1])
  }

  function LastNodes(ops: seq<ReplicaOp>): Option<seq<Node>> {
    if ops == [] then None
    else if ops[|ops| - 1].SendNodes? then Some(ops[|ops| - 1].nodes)
    else LastNodes(ops[..|ops| - 1])
  }

  function LastId(ops: seq<ReplicaOp>): Option<int> {
    if ops == [] then None
    else if ops[|ops| - 1].SendId? then Some(ops[|ops| - 1].id)
    else LastId(ops[..|ops| - 1])
  }

  lemma LastSnoc(ops: seq<ReplicaOp>, op: ReplicaOp)
    ensures LastIps(ops + [op]) == if op.SendIps? then Some(op.ips) else LastIps(ops)
    ensures LastNodes(ops + [op]) == if op.SendNodes? then Some(op.nodes) else LastNodes(ops)
    ensures LastId(ops + [op]) == if op.SendId? then Some(op.id) else LastId(ops)
  {
    assert (ops + [op])[..|ops|] == ops;
  }

  /** A receiver holds the last list of each kind that it was sent, and the last id. */
  lemma {:induction false} LastOnesAreHeld(d: Direct, ops: seq<ReplicaOp>)
    ensures var e := ApplyAll(d, ops);
      && e.ips == LastIps(ops).GetOr(d.ips) && e.nodes == LastNodes(ops).GetOr(d.nodes)
      && e.serverId == LastId(ops).GetOr(d.serverId)
  {
    if ops != [] {
      var front, last := ops[..|ops| - 1], ops[|ops| - 1];
      assert ops == front + [last];
      LastOnesAreHeld(d, front);
      ApplyAllSnoc(d, front, last);
    }
  }
}
