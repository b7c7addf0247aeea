/**
 * The replication engine of a primary: one file store, a change queue for every device of
 * every user and for every backup, and the replica each of them builds.  Steps are as fine as
 * the locked methods; every interleaving of them is a run.
 */
module Replication {
  import opened Bytes
  import opened BackupStream

  datatype ChangeType = FileCreated | FileDeleted

  /** A queued change carries no content. */
  datatype Change = Change(key: Key, kind: ChangeType)

  datatype Id = Device(user: string, ip: string) | Backup(ip: string)

  /** Where a change came from: a device's data channel, or the command channel of a user. */
  datatype Origin = Data(user: string, ip: string) | Command(user: string)

  datatype Entry = Entry(change: Change, origin: Origin)

  /**
   * A subscriber and its monitor.  `started`, `todo` and `sync` are the initial synchronisation:
   * the directories still to be listed, and the rest of the listing being sent.  The last five
   * fields are history: the keys that will not be right once everything queued is sent, the
   * length of the log on joining, the changes popped, the operations sent, and what was on the
   * subscriber's disk when it joined.
   */
  datatype Subscriber = Subscriber(
    queue: seq<Change>, started: bool, todo: set<string>, sync: seq<Key>, replica: Store,
    lost: set<Key>, since: nat, popped: seq<Change>, sent: seq<ReplicaOp>, left: Store)

  datatype State = State(store: Store, subs: map<Id, Subscriber>, log: seq<Entry>)

  /**
   * `left` is what a joining subscriber already has on its disk: nothing on a client's first
   * connection, which wipes its directory, but whatever an earlier connection left behind on a
   * later one, and on every connection of a backup, which never wipes.
   */
  datatype Step =
    | Join(id: Id, left: Store)
    | Leave(id: Id)
    | Open(id: Id, dirs: set<string>)
    | List(id: Id, user: string, listing: seq<Key>)
    | SyncSend(id: Id)
    | Pop(id: Id)
    | Mutate(key: Key, now: Option<Bytes>, origin: Origin)

  function Get(m: Store, k: Key): Option<Bytes> {
    if k in m then Some(m[k]) else None
  }

  function Put1(m: Store, k: Key, v: Option<Bytes>): Store {
    match v
    case Some(content) => m[k := content]
    case None => m - {k}
  }

  predicate InScope(id: Id, k: Key) {
    id.Device? ==> k.user == id.user
  }

  function View(id: Id, store: Store): Store {
    map k | k in store && InScope(id, k) :: store[k]
  }

  /** The data channel notifies the user's other devices and the backups, the command channel all the user's devices. */
  predicate Notified(id: Id, e: Entry) {
    match id
    case Device(user, ip) => e.change.key.user == user && e.origin != Data(user, ip)
    case Backup(_) => e.origin.Data?
  }

  // ---- sending ----

  /** sendFileChange against the store of the moment: a created file is sent as it is now, or skipped if it is gone. */
  function OpFor(store: Store, c: Change): ReplicaOp {
    match c.kind
    case FileCreated => if c.key in store then Put(c.key, store[c.key]) else Vanished(c.key.user)
    case FileDeleted => Remove(c.key)
  }

  function Deliver(replica: Store, store: Store, c: Change): Store {
    match OpFor(store, c)
    case Put(key, content) => replica[key := content]
    case Remove(key) => replica - {key}
    case _ => replica
  }

  function Sent(sub: Subscriber, store: Store, c: Change): Subscriber {
    sub.(replica := Deliver(sub.replica, store, c), sent := sub.sent + [OpFor(store, c)])
  }

  /** Still to be sent by the initial synchronisation if it exists. */
  predicate Pending(sub: Subscriber, k: Key) {
    k in sub.sync || !sub.started || k.user in sub.todo
  }

  function Synced(id: Id, sub: Subscriber, store: Store): Store {
    sub.replica + map k | k in store && InScope(id, k) && Pending(sub, k) :: store[k]
  }

  function DrainQueue(q: seq<Change>, store: Store, replica: Store): Store {
    if q == [] then replica else Deliver(DrainQueue(q[..|q| - 1], store, replica), store, q[|q| - 1])
  }

  /** The replica once everything that is left has been sent, if nothing else happens. */
  function Drained(id: Id, sub: Subscriber, store: Store): Store {
    DrainQueue(sub.queue, store, Synced(id, sub, store))
  }

  // ---- steps ----

  predicate Announced(s: State, o: Origin) {
    match o
    case Data(user, ip) => Device(user, ip) in s.subs
    case Command(user) => exists id | id in s.subs :: id.Device? && id.user == user
  }

  predicate Enabled(s: State, step: Step) {
    match step
    case Join(id, left) =>
      && id !in s.subs && (id.Device? ==> |Devices(s, id.user)| < 2)
      && forall k | k in left :: InScope(id, k)
    case Leave(id) => id in s.subs
    case Open(id, dirs) =>
      && id in s.subs && !s.subs[id].started
      && forall k | k in s.store && InScope(id, k) :: k.user in dirs
    case List(id, user, listing) =>
      && id in s.subs && s.subs[id].started && user in s.subs[id].todo && s.subs[id].sync == []
      && (forall k | k in listing :: k in s.store && k.user == user && InScope(id, k))
      && (forall k | k in s.store && k.user == user && InScope(id, k) :: k in listing)
    case SyncSend(id) => id in s.subs && s.subs[id].sync != []
    case Pop(id) => id in s.subs && Idle(s.subs[id]) && s.subs[id].queue != []
    case Mutate(key, _, origin) => Announced(s, origin) && key.user == origin.user
  }

  /** The initial synchronisation is over. */
  predicate Idle(sub: Subscriber) {
    sub.started && sub.todo == {} && sub.sync == []
  }

  function Devices(s: State, user: string): set<Id> {
    set id | id in s.subs && id.Device? && id.user == user
  }

  /** The initial synchronisation only creates: what is on the disk and not in the store will stay. */
  function Fresh(since: nat, left: Store, store: Store): Subscriber {
    Subscriber([], false, {}, [], left, (set k | k in left && k !in store), since, [], [], left)
  }

  function ChangeOf(key: Key, now: Option<Bytes>): Change {
    Change(key, if now.Some? then FileCreated else FileDeleted)
  }

  /** The newest change queued for a key. */
  function Newest(q: seq<Change>, k: Key): Option<ChangeType> {
    if q == [] then None
    else if q[|q| - 1].key == k then Some(q[|q| - 1].kind)
    else Newest(q[..|q| - 1], k)
  }

  predicate DeleteQueued(q: seq<Change>, k: Key) {
    Change(k, FileDeleted) in q
  }

  /** A device uploads a file of which its own queue still holds a newer-looking delete. */
  predicate Overtaken(sub: Subscriber, key: Key, now: Option<Bytes>) {
    now.Some? && Newest(sub.queue, key) == Some(FileDeleted)
  }

  /** A change a backup is not told of, and that nothing still to be sent will bring along. */
  predicate Missed(sub: Subscriber, key: Key, now: Option<Bytes>) {
    match now
    case Some(content) =>
      match Newest(sub.queue, key) {
        case Some(kind) => kind == FileDeleted
        case None => !Pending(sub, key) && Get(sub.replica, key) != now
      }
    case None => key in sub.replica && !DeleteQueued(sub.queue, key)
  }

  /** A subscriber after a change: it is queued, or happened on the device itself, or is none of its business. */
  function Touched(id: Id, sub: Subscriber, key: Key, now: Option<Bytes>, origin: Origin): Subscriber {
    if Notified(id, Entry(ChangeOf(key, now), origin)) then
      sub.(queue := sub.queue + [ChangeOf(key, now)], lost := sub.lost - {key})
    else if !InScope(id, key) then sub
    else if id.Device? then
      sub.(replica := Put1(sub.replica, key, now),
           lost := if Overtaken(sub, key, now) then sub.lost + {key} else sub.lost - {key})
    else
      sub.(lost := if Missed(sub, key, now) then sub.lost + {key} else sub.lost - {key})
  }

  function Next(s: State, step: Step): State
    requires Enabled(s, step)
  {
    match step
    case Join(id, left) => s.(subs := s.subs[id := Fresh(|s.log|, left, s.store)])
    case Leave(id) => s.(subs := s.subs - {id})
    case Open(id, dirs) => s.(subs := s.subs[id := s.subs[id].(started := true, todo := dirs)])
    case List(id, user, listing) =>
      s.(subs := s.subs[id := s.subs[id].(todo := s.subs[id].todo - {user}, sync := listing)])
    case SyncSend(id) =>
      var sub := s.subs[id];
      var sub' := Sent(sub.(sync := sub.sync[1..]), s.store, Change(sub.sync[0], FileCreated));
      s.(subs := s.subs[id := sub'])
    case Pop(id) =>
      var sub := s.subs[id];
      var sub' := sub.(queue := sub.queue[1..], popped := sub.popped + [sub.queue[0]]);
      s.(subs := s.subs[id := Sent(sub', s.store, sub.queue[0])])
    case Mutate(key, now, origin) =>
      State(
        Put1(s.store, key, now),
        map id | id in s.subs :: Touched(id, s.subs[id], key, now, origin),
        s.log + [Entry(ChangeOf(key, now), origin)])
  }

  /** A run: None when some step is not enabled. */
  function Run(s: State, steps: seq<Step>): Option<State>
    decreases |steps|
  {
    if steps == [] then Some(s)
    else if !Enabled(s, steps[0]) then None
    else Run(Next(s, steps[0]), steps[1..])
  }

  function Start(store: Store): State {
    State(store, map[], [])
  }

  // ---- what draining gives, key by key ----

  lemma {:induction false} DrainAt(q: seq<Change>, store: Store, replica: Store, k: Key)
    ensures Get(DrainQueue(q, store, replica), k) ==
      if k !in store && DeleteQueued(q, k) then None
      else if k !in store || Newest(q, k) == None then Get(replica, k)
      else if Newest(q, k) == Some(FileDeleted) then None
      else Some(store[k])
  {
    if q != [] {
      var front, last := q[..|q| - 1], q[|q| - 1];
      DrainAt(front, store, replica, k);
      assert q == front + [last];
    }
  }

  /** When draining brings a key, now at `synced`, to what the store holds. */
  predicate WillAgree(q: seq<Change>, k: Key, now: Option<Bytes>, synced: Option<Bytes>) {
    match now
    case Some(_) => Newest(q, k) == Some(FileCreated) || (Newest(q, k) == None && synced == now)
    case None => DeleteQueued(q, k) || synced == None
  }

  /** What the initial synchronisation leaves of a key in scope. */
  function SyncedAt(sub: Subscriber, store: Store, k: Key): Option<Bytes> {
    if k in store && Pending(sub, k) then Some(store[k]) else Get(sub.replica, k)
  }

  predicate Right(sub: Subscriber, store: Store, k: Key) {
    WillAgree(sub.queue, k, Get(store, k), SyncedAt(sub, store, k))
  }

  lemma RightIsExact(id: Id, sub: Subscriber, store: Store, k: Key)
    requires InScope(id, k)
    ensures Get(Drained(id, sub, store), k) == Get(store, k) <==> Right(sub, store, k)
  {
    DrainAt(sub.queue, store, Synced(id, sub, store), k);
    assert Get(Synced(id, sub, store), k) == SyncedAt(sub, store, k);
    match Newest(sub.queue, k) {
      case None =>
      case Some(kind) => match kind { case FileCreated => case FileDeleted => NewestIsQueued(sub.queue, k); }
    }
  }

  lemma {:induction false} NewestIsQueued(q: seq<Change>, k: Key)
    ensures Newest(q, k) == Some(FileDeleted) ==> DeleteQueued(q, k)
  {
    if q != [] { NewestIsQueued(q[..|q| - 1], k); }
  }

  /** Sending the head of the queue first is draining the queue. */
  lemma {:induction false} DrainHead(q: seq<Change>, store: Store, replica: Store)
    requires q != []
    ensures DrainQueue(q, store, replica) == DrainQueue(q[1..], store, Deliver(replica, store, q[0]))
  {
    var front := q[..|q| - 1];
    if front == [] {
      assert q[1..] == [];
    } else {
      DrainHead(front, store, replica);
      assert q[1..][..|q| - 2] == front[1..];
    }
  }

  // ---- the invariant ----

  /** The changes of a stretch of log that a subscriber is told of, in order. */
  function Selected(id: Id, log: seq<Entry>): seq<Change> {
    if log == [] then [] else
      Selected(id, log[..|log| - 1]) + if Notified(id, log[|log| - 1]) then [log[|log| - 1].change] else []
  }

  /** A subscriber's disk and no lists. */
  function Holding(store: Store): Direct {
    Direct(store, [], [], 0)
  }

  /** Keys outside the subscriber's business never appear. */
  predicate Scoped(id: Id, sub: Subscriber) {
    && (forall k | k in sub.replica :: InScope(id, k))
    && (forall k | k in sub.lost :: InScope(id, k))
    && (forall k | k in sub.sync :: InScope(id, k))
    && (forall c | c in sub.queue :: InScope(id, c.key))
  }

  /** Nothing lost, duplicated or reordered since the subscriber joined. */
  predicate InOrder(id: Id, sub: Subscriber, log: seq<Entry>) {
    sub.since <= |log| && sub.popped + sub.queue == Selected(id, log[sub.since..])
  }

  /** A backup is exactly what was sent to it, on top of what it had. */
  predicate Replayed(id: Id, sub: Subscriber) {
    id.Backup? ==> ApplyAll(Holding(sub.left), sub.sent) == Holding(sub.replica)
  }

  /** Sending all that is left makes a key right if and only if the key is not lost. */
  ghost predicate Exact(id: Id, sub: Subscriber, store: Store) {
    forall k | InScope(id, k) :: k !in sub.lost <==> Get(Drained(id, sub, store), k) == Get(store, k)
  }

  ghost predicate SubInv(id: Id, sub: Subscriber, s: State) {
    Scoped(id, sub) && InOrder(id, sub, s.log) && Replayed(id, sub) && Exact(id, sub, s.store)
  }

  ghost predicate Inv(s: State) {
    && (forall id | id in s.subs :: SubInv(id, s.subs[id], s))
    && (forall user :: |Devices(s, user)| <= 2)
  }

  lemma FreshExact(id: Id, since: nat, left: Store, store: Store)
    ensures forall k | InScope(id, k) ::
      Get(Drained(id, Fresh(since, left, store), store), k) == Get(store, k) <==> (k in left ==> k in store)
  {
    assert Drained(id, Fresh(since, left, store), store) == Synced(id, Fresh(since, left, store), store);
  }

  lemma SyncedOpen(id: Id, sub: Subscriber, dirs: set<string>, store: Store)
    requires !sub.started
    requires forall k | k in store && InScope(id, k) :: k.user in dirs
    ensures Synced(id, sub.(started := true, todo := dirs), store) == Synced(id, sub, store)
  {}

  lemma SyncedList(id: Id, sub: Subscriber, user: string, listing: seq<Key>, store: Store)
    requires sub.started && user in sub.todo && sub.sync == []
    requires forall k | k in listing :: k in store && k.user == user && InScope(id, k)
    requires forall k | k in store && k.user == user && InScope(id, k) :: k in listing
    ensures Synced(id, sub.(todo := sub.todo - {user}, sync := listing), store) == Synced(id, sub, store)
  {
    hide Synced;
    var sub' := sub.(todo := sub.todo - {user}, sync := listing);
    forall k
      ensures Get(Synced(id, sub', store), k) == Get(Synced(id, sub, store), k)
    {
      GetSynced(id, sub, store, k);
      GetSynced(id, sub', store, k);
    }
    SameStore(Synced(id, sub', store), Synced(id, sub, store));
  }

  lemma SyncedSend(id: Id, sub: Subscriber, store: Store)
    requires sub.sync != [] && InScope(id, sub.sync[0])
    ensures Synced(id, Sent(sub.(sync := sub.sync[1..]), store, Change(sub.sync[0], FileCreated)), store)
      == Synced(id, sub, store)
  {
    hide Synced, Pending, OpFor;
    var k := sub.sync[0];
    var sub' := Sent(sub.(sync := sub.sync[1..]), store, Change(k, FileCreated));
    SendCreatedAt(sub.replica, store, k);
    PendingSend(sub, sub');
    forall x
      ensures Get(Synced(id, sub', store), x) == Get(Synced(id, sub, store), x)
    {
      GetSynced(id, sub, store, x);
      GetSynced(id, sub', store, x);
    }
    SameStore(Synced(id, sub', store), Synced(id, sub, store));
  }

  lemma SendCreatedAt(replica: Store, store: Store, k: Key)
    ensures Deliver(replica, store, Change(k, FileCreated)) == if k in store then replica[k := store[k]] else replica
  {}

  lemma GetSynced(id: Id, sub: Subscriber, store: Store, x: Key)
    ensures Get(Synced(id, sub, store), x)
      == if x in store && InScope(id, x) && Pending(sub, x) then Some(store[x]) else Get(sub.replica, x)
  {}

  lemma SameStore(a: Store, b: Store)
    requires forall x :: Get(a, x) == Get(b, x)
    ensures a == b
  {
    forall x
      ensures x in a <==> x in b
      ensures x in a ==> a[x] == b[x]
    {
      assert Get(a, x) == Get(b, x);
    }
  }

  lemma PendingSend(sub: Subscriber, sub': Subscriber)
    requires sub.sync != [] && sub'.sync == sub.sync[1..] && sub'.started == sub.started && sub'.todo == sub.todo
    ensures forall k :: Pending(sub, k) <==> Pending(sub', k) || k == sub.sync[0]
  {
    assert sub.sync == [sub.sync[0]] + sub.sync[1..];
  }

  lemma SyncedIdle(id: Id, sub: Subscriber, store: Store)
    requires Idle(sub)
    ensures Synced(id, sub, store) == sub.replica
  {}

  lemma SentKeeps(id: Id, sub: Subscriber, store: Store, c: Change)
    requires Replayed(id, sub) && Scoped(id, sub) && InScope(id, c.key)
    ensures Replayed(id, Sent(sub, store, c)) && Scoped(id, Sent(sub, store, c))
  {
    ApplyAllSnoc(Holding(sub.left), sub.sent, OpFor(store, c));
  }

  /** A send step leaves what draining will give untouched. */
  lemma MonitorStepKeeps(s: State, step: Step)
    requires Inv(s) && Enabled(s, step)
    requires step.Open? || step.List? || step.SyncSend? || step.Pop?
    ensures SubInv(step.id, Next(s, step).subs[step.id], Next(s, step))
    ensures Drained(step.id, Next(s, step).subs[step.id], s.store) == Drained(step.id, s.subs[step.id], s.store)
  {
    hide Synced, DrainQueue, Deliver, OpFor, Selected, ApplyAll;
    var id := step.id;
    var sub := s.subs[id];
    var t := Next(s, step);
    assert SubInv(id, sub, s);
    match step {
      case Open(_, dirs) => SyncedOpen(id, sub, dirs, s.store);
      case List(_, user, listing) => SyncedList(id, sub, user, listing, s.store);
      case SyncSend(_) =>
        SyncedSend(id, sub, s.store);
        SentKeeps(id, sub.(sync := sub.sync[1..]), s.store, Change(sub.sync[0], FileCreated));
      case Pop(_) =>
        SyncedIdle(id, sub, s.store);
        SyncedIdle(id, t.subs[id], s.store);
        DrainHead(sub.queue, s.store, sub.replica);
        SentKeeps(id, sub.(queue := sub.queue[1..], popped := sub.popped + [sub.queue[0]]), s.store, sub.queue[0]);
        assert sub.popped + sub.queue == (sub.popped + [sub.queue[0]]) + sub.queue[1..];
    }
  }

  lemma NewestPush(q: seq<Change>, c: Change, k: Key)
    ensures Newest(q + [c], k) == if c.key == k then Some(c.kind) else Newest(q, k)
    ensures DeleteQueued(q + [c], k) <==> DeleteQueued(q, k) || c == Change(k, FileDeleted)
  {
    assert (q + [c])[..|q|] == q;
  }

  /** What a change leaves alone in a subscriber, looking at another key. */
  lemma TouchedFields(id: Id, sub: Subscriber, key: Key, now: Option<Bytes>, origin: Origin, k: Key)
    requires k != key
    ensures var sub' := Touched(id, sub, key, now, origin);
      && (sub'.queue == sub.queue || sub'.queue == sub.queue + [ChangeOf(key, now)])
      && sub'.sync == sub.sync && sub'.started == sub.started && sub'.todo == sub.todo
      && Get(sub'.replica, k) == Get(sub.replica, k)
      && (k in sub'.lost <==> k in sub.lost)
  {}

  /** A change elsewhere does not disturb a key. */
  lemma TouchedElsewhere(
    id: Id, sub: Subscriber, key: Key, now: Option<Bytes>, origin: Origin, store: Store, k: Key)
    requires k != key
    ensures k in Touched(id, sub, key, now, origin).lost <==> k in sub.lost
    ensures Get(Put1(store, key, now), k) == Get(store, k)
    ensures Right(Touched(id, sub, key, now, origin), Put1(store, key, now), k) <==> Right(sub, store, k)
  {
    hide Touched, Newest, DeleteQueued;
    TouchedFields(id, sub, key, now, origin, k);
    NewestPush(sub.queue, ChangeOf(key, now), k);
  }

  /** What the newest change for the key is after one has been queued, or not. */
  lemma TouchedQueue(id: Id, sub: Subscriber, key: Key, now: Option<Bytes>, origin: Origin)
    ensures var q := Touched(id, sub, key, now, origin).queue;
      if Notified(id, Entry(ChangeOf(key, now), origin)) then
        && Newest(q, key) == Some(ChangeOf(key, now).kind)
        && (now.None? ==> DeleteQueued(q, key))
      else q == sub.queue
  {
    NewestPush(sub.queue, ChangeOf(key, now), key);
  }

  /** The changed key is right afterwards exactly when it is not recorded as lost. */
  lemma TouchedHere(id: Id, sub: Subscriber, key: Key, now: Option<Bytes>, origin: Origin, store: Store)
    requires InScope(id, key) && key.user == origin.user
    ensures key !in Touched(id, sub, key, now, origin).lost
      <==> Right(Touched(id, sub, key, now, origin), Put1(store, key, now), key)
  {
    hide Newest, DeleteQueued;
    TouchedQueue(id, sub, key, now, origin);
    assert Get(Put1(store, key, now), key) == now;
    match Newest(sub.queue, key) {
      case None =>
      case Some(kind) => match kind { case FileCreated => case FileDeleted => }
    }
  }

  lemma TouchedExact(id: Id, sub: Subscriber, key: Key, now: Option<Bytes>, origin: Origin, store: Store)
    requires Exact(id, sub, store) && key.user == origin.user
    ensures Exact(id, Touched(id, sub, key, now, origin), Put1(store, key, now))
  {
    hide Touched, Right, Drained, Put1;
    var sub' := Touched(id, sub, key, now, origin);
    var store' := Put1(store, key, now);
    forall k | InScope(id, k)
      ensures k !in sub'.lost <==> Get(Drained(id, sub', store'), k) == Get(store', k)
    {
      RightIsExact(id, sub, store, k);
      RightIsExact(id, sub', store', k);
      if k == key {
        TouchedHere(id, sub, key, now, origin, store);
      } else {
        TouchedElsewhere(id, sub, key, now, origin, store, k);
      }
    }
  }

  lemma TouchedScoped(id: Id, sub: Subscriber, key: Key, now: Option<Bytes>, origin: Origin)
    requires Scoped(id, sub)
    ensures Scoped(id, Touched(id, sub, key, now, origin))
  {}

  lemma SelectedPush(id: Id, log: seq<Entry>, since: nat, e: Entry)
    requires since <= |log|
    ensures Selected(id, (log + [e])[since..])
      == Selected(id, log[since..]) + if Notified(id, e) then [e.change] else []
  {
    assert (log + [e])[since..] == log[since..] + [e];
    assert (log[since..] + [e])[..|log[since..]|] == log[since..];
  }

  lemma MutateKeeps(s: State, step: Step, id: Id)
    requires Inv(s) && Enabled(s, step) && step.Mutate? && id in s.subs
    ensures SubInv(id, Next(s, step).subs[id], Next(s, step))
  {
    hide Exact, Scoped, Touched, Selected, ApplyAll;
    var sub, e := s.subs[id], Entry(ChangeOf(step.key, step.now), step.origin);
    assert SubInv(id, sub, s);
    TouchedExact(id, sub, step.key, step.now, step.origin, s.store);
    TouchedScoped(id, sub, step.key, step.now, step.origin);
    SelectedPush(id, s.log, sub.since, e);
    TouchedHistory(id, sub, step.key, step.now, step.origin);
    assert sub.popped + (sub.queue + [e.change]) == (sub.popped + sub.queue) + [e.change];
  }

  lemma TouchedHistory(id: Id, sub: Subscriber, key: Key, now: Option<Bytes>, origin: Origin)
    ensures var sub' := Touched(id, sub, key, now, origin);
      && sub'.since == sub.since && sub'.popped == sub.popped && sub'.sent == sub.sent && sub'.left == sub.left
      && (id.Backup? ==> sub'.replica == sub.replica)
      && sub'.queue == sub.queue
        + if Notified(id, Entry(ChangeOf(key, now), origin)) then [ChangeOf(key, now)] else []
  {}

  lemma FewDevices(s: State, user: string)
    requires Inv(s)
    ensures |Devices(s, user)| <= 2
  {}

  lemma DevicesKeep(s: State, step: Step, user: string)
    requires Inv(s) && Enabled(s, step)
    ensures |Devices(Next(s, step), user)| <= 2
  {
    hide Inv, Touched, Sent, Announced, Idle;
    assert |Devices(s, user)| <= 2 by {
      FewDevices(s, user);
    }
    var before, after := Devices(s, user), Devices(Next(s, step), user);
    if step.Join? && step.id.Device? && step.id.user == user {
      assert after == before + {step.id};
    } else {
      SubsetSize(after, before);
    }
  }

  lemma {:induction false} SubsetSize<T>(a: set<T>, b: set<T>)
    requires a <= b
    ensures |a| <= |b|
  {
    if a != {} {
      var x :| x in a;
      SubsetSize(a - {x}, b - {x});
    }
  }

  lemma InvStep(s: State, step: Step)
    requires Inv(s) && Enabled(s, step)
    ensures Inv(Next(s, step))
  {
    var t := Next(s, step);
    forall user { DevicesKeep(s, step, user); }
    forall id | id in t.subs
      ensures SubInv(id, t.subs[id], t)
    {
      if step.Mutate? {
        MutateKeeps(s, step, id);
      } else if step.Join? && id == step.id {
        FreshExact(id, |s.log|, step.left, s.store);
      } else if !step.Join? && !step.Leave? && id == step.id {
        MonitorStepKeeps(s, step);
      } else {
        assert t.subs[id] == s.subs[id];
      }
    }
  }

  lemma {:induction false} InvRun(s: State, steps: seq<Step>)
    requires Inv(s) && Run(s, steps).Some?
    ensures Inv(Run(s, steps).value)
    decreases |steps|
  {
    if steps != [] {
      InvStep(s, steps[0]);
      InvRun(Next(s, steps[0]), steps[1..]);
    }
  }
}
