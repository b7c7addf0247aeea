/**
 * The change queues of a user's devices (common/include/atomic/atomicQueue.hpp and
 * server/includes/primary/clientConnection/userConnection.hpp), and that pushing to them is
 * what a step of the replication engine does.
 */
module ChangeQueues {
  import opened Bytes
  import opened BackupStream
  import opened Replication

  class AtomicQueue<T> {
    var items: seq<T>

    constructor ()
      ensures items == []
    {
      items := [];
    }

    method Push(data: T)
      modifies this
      ensures items == old(items) + [data]
    {
      items := items + [data];
    }

    /** None stands for the exception on an empty queue. */
    method Pop() returns (data: Option<T>)
      modifies this
      ensures old(items) == [] ==> data == None && items == []
      ensures old(items) != [] ==> data == Some(old(items)[0]) && items == old(items)[1..]
    {
      if items == [] {
        return None;
      }
      data := Some(items[0]);
      items := items[1..];
    }

    /** False on an empty queue, and then `data` keeps what it held. */
    method TryPop(data: T) returns (popped: bool, result: T)
      modifies this
      ensures old(items) == [] ==> !popped && result == data && items == []
      ensures old(items) != [] ==> popped && result == old(items)[0] && items == old(items)[1..]
    {
      if items == [] {
        return false, data;
      }
      popped, result := true, items[0];
      items := items[1..];
    }
  }

  datatype FileChange = FileChange(filename: string, changeType: ChangeType)

  /** A change pushed to every queue but that of the device it came from. */
  function FanOut<T>(queues: map<string, seq<T>>, change: T, except: Option<string>): map<string, seq<T>> {
    map ip | ip in queues :: if except == Some(ip) then queues[ip] else queues[ip] + [change]
  }

  /** Every address has a queue of its own. */
  ghost predicate Separate<T>(queues: map<string, AtomicQueue<T>>) {
    forall a, b | a in queues && b in queues && a != b :: queues[a] != queues[b]
  }

  ghost function Items<T>(queues: map<string, AtomicQueue<T>>): map<string, seq<T>>
    reads queues.Values
  {
    map ip | ip in queues :: queues[ip].items
  }

  /** The loop that pushes a change to every queue but one. */
  method PushToAll<T>(queues: map<string, AtomicQueue<T>>, change: T, except: Option<string>)
    requires Separate(queues)
    modifies queues.Values
    ensures Items(queues) == FanOut(old(Items(queues)), change, except)
  {
    var todo := queues.Keys;
    while todo != {}
      invariant todo <= queues.Keys
      invariant forall ip | ip in queues ::
        queues[ip].items
          == if ip in todo || except == Some(ip) then old(queues[ip].items) else old(queues[ip].items) + [change]
      decreases todo
    {
      var ip :| ip in todo;
      if except != Some(ip) {
        label push:
        queues[ip].Push(change);
        assert forall other | other in queues && other != ip :: queues[other].items == old@push(queues[other].items);
      }
      todo := todo - {ip};
    }
  }

  class UserConnection {
    var clientConnections: map<string, AtomicQueue<FileChange>>

    ghost predicate Valid()
      reads this
    {
      |clientConnections| <= 2 && Separate(clientConnections)
    }

    ghost function Queues(): map<string, seq<FileChange>>
      reads this, clientConnections.Values
    {
      Items(clientConnections)
    }

    constructor ()
      ensures Valid() && clientConnections == map[]
    {
      clientConnections := map[];
    }

    /** The queue of the device, a new empty one, or the exception when two devices are connected. */
    method AddClientConnection(ip: string) returns (queue: Option<AtomicQueue<FileChange>>)
      requires Valid()
      modifies this
      ensures Valid()
      ensures ip in old(clientConnections) ==>
        clientConnections == old(clientConnections) && queue == Some(clientConnections[ip])
      ensures ip !in old(clientConnections) && |old(clientConnections)| >= 2 ==>
        queue == None && clientConnections == old(clientConnections)
      ensures ip !in old(clientConnections) && |old(clientConnections)| < 2 ==>
        && queue.Some? && fresh(queue.value)
        && clientConnections == old(clientConnections)[ip := queue.value]
        && Queues() == old(Queues())[ip := []]
    {
      if ip in clientConnections {
        return Some(clientConnections[ip]);
      }
      if |clientConnections| >= 2 {
        return None;
      }
      var added := new AtomicQueue<FileChange>();
      clientConnections := clientConnections[ip := added];
      queue := Some(added);
    }

    method RemoveClientConnection(ip: string)
      requires Valid()
      modifies this
      ensures Valid()
      ensures clientConnections == old(clientConnections) - {ip}
      ensures Queues() == old(Queues()) - {ip}
    {
      clientConnections := clientConnections - {ip};
      MapSize(old(clientConnections), ip);
    }

    /** Data channel: all queues but the sender's.  False stands for the exception on an unknown address. */
    method AddFileChangeFrom(ip: string, change: FileChange) returns (known: bool)
      requires Valid()
      modifies clientConnections.Values
      ensures Valid() && known == (ip in clientConnections)
      ensures Queues() == if known then FanOut(old(Queues()), change, Some(ip)) else old(Queues())
    {
      known := ip in clientConnections;
      if known {
        PushToAll(clientConnections, change, Some(ip));
      }
    }

    /** Command channel: all queues. */
    method AddFileChange(change: FileChange)
      requires Valid()
      modifies clientConnections.Values
      ensures Valid()
      ensures Queues() == FanOut(old(Queues()), change, None)
    {
      PushToAll(clientConnections, change, None);
    }
  }

  lemma MapSize<V>(m: map<string, V>, ip: string)
    ensures |m - {ip}| <= |m|
  {
    SubsetSize((m - {ip}).Keys, m.Keys);
  }

  // ---- the queues of the replication engine ----

  function FileChanges(q: seq<Change>): seq<FileChange> {
    seq(|q|, i requires 0 <= i < |q| => FileChange(q[i].key.name, q[i].kind))
  }

  function DeviceIps(s: State, user: string): set<string> {
    set id | id in s.subs && id == Device(user, id.ip) :: id.ip
  }

  function BackupIps(s: State): set<string> {
    set id | id in s.subs && id == Backup(id.ip) :: id.ip
  }

  function QueuesOf(s: State, user: string): map<string, seq<FileChange>> {
    map ip | ip in DeviceIps(s, user) :: FileChanges(s.subs[Device(user, ip)].queue)
  }

  function BackupQueues(s: State): map<string, seq<Change>> {
    map ip | ip in BackupIps(s) :: s.subs[Backup(ip)].queue
  }

  lemma FileChangesPush(q: seq<Change>, c: Change)
    ensures FileChanges(q + [c]) == FileChanges(q) + [FileChange(c.key.name, c.kind)]
  {}

  lemma QueueAfterChange(s: State, step: Step, id: Id)
    requires Enabled(s, step) && step.Mutate? && id in s.subs
    ensures Next(s, step).subs.Keys == s.subs.Keys
    ensures var c := ChangeOf(step.key, step.now);
      Next(s, step).subs[id].queue == s.subs[id].queue + if Notified(id, Entry(c, step.origin)) then [c] else []
  {
    TouchedHistory(id, s.subs[id], step.key, step.now, step.origin);
  }

  /** A user's device queues after a change through either channel: what the two addFileChange overloads do. */
  lemma DeviceQueuesFanOut(s: State, step: Step, user: string)
    requires Enabled(s, step) && step.Mutate?
    ensures QueuesOf(Next(s, step), user) ==
      if user != step.key.user then QueuesOf(s, user)
      else FanOut(QueuesOf(s, user), FileChange(step.key.name, ChangeOf(step.key, step.now).kind),
        if step.origin.Data? then Some(step.origin.ip) else None)
  {
    hide Next;
    EmptyStays(s, step);
    assert DeviceIps(Next(s, step), user) == DeviceIps(s, user);
    var c := ChangeOf(step.key, step.now);
    var after := QueuesOf(Next(s, step), user);
    var except := if step.origin.Data? then Some(step.origin.ip) else None;
    var expected := if user != step.key.user then QueuesOf(s, user)
      else FanOut(QueuesOf(s, user), FileChange(c.key.name, c.kind), except);
    assert after.Keys == expected.Keys;
    forall ip | ip in after
      ensures after[ip] == expected[ip]
    {
      QueueAfterChange(s, step, Device(user, ip));
      FileChangesPush(s.subs[Device(user, ip)].queue, c);
    }
  }

  lemma EmptyStays(s: State, step: Step)
    requires Enabled(s, step) && step.Mutate?
    ensures Next(s, step).subs.Keys == s.subs.Keys
  {}

  /** The backup queues: pushed to by the data channel, not by the command channel. */
  lemma BackupQueuesFanOut(s: State, step: Step)
    requires Enabled(s, step) && step.Mutate?
    ensures BackupQueues(Next(s, step)) ==
      if step.origin.Data? then FanOut(BackupQueues(s), ChangeOf(step.key, step.now), None) else BackupQueues(s)
  {
    hide Next;
    EmptyStays(s, step);
    assert BackupIps(Next(s, step)) == BackupIps(s);
    var after := BackupQueues(Next(s, step));
    var expected :=
      if step.origin.Data? then FanOut(BackupQueues(s), ChangeOf(step.key, step.now), None) else BackupQueues(s);
    assert after.Keys == expected.Keys;
    forall ip | ip in after
      ensures after[ip] == expected[ip]
    {
      QueueAfterChange(s, step, Backup(ip));
    }
  }

  lemma {:induction false} OneIpEach(ids: set<Id>, user: string)
    requires forall id | id in ids :: id.Device? && id.user == user
    ensures |set id | id in ids :: id.ip| == |ids|
  {
    if ids != {} {
      var one :| one in ids;
      OneIpEach(ids - {one}, user);
      var rest := set id | id in ids - {one} :: id.ip;
      assert one.ip !in rest;
      assert (set id | id in ids :: id.ip) == rest + {one.ip};
    }
  }

  lemma QueuePerDevice(s: State, user: string)
    ensures |QueuesOf(s, user)| == |Devices(s, user)|
    ensures forall ip :: ip in QueuesOf(s, user) <==> Device(user, ip) in s.subs
  {
    OneIpEach(Devices(s, user), user);
    assert DeviceIps(s, user) == set id | id in Devices(s, user) :: id.ip;
    assert QueuesOf(s, user).Keys == DeviceIps(s, user);
    forall ip
      ensures ip in DeviceIps(s, user) <==> Device(user, ip) in s.subs
    {
      assert Device(user, ip) == Device(user, Device(user, ip).ip);
    }
  }

  lemma QueueAt(s: State, user: string, ip: string)
    requires Device(user, ip) in s.subs
    ensures ip in QueuesOf(s, user) && QueuesOf(s, user)[ip] == FileChanges(s.subs[Device(user, ip)].queue)
  {
    QueuePerDevice(s, user);
  }

  /** Queues change where their device does. */
  lemma QueuesFollow(s: State, t: State, user: string, ip: string, expected: map<string, seq<FileChange>>)
    requires forall x :: x in expected <==> Device(user, x) in t.subs
    requires forall x | x in expected && x != ip ::
      && Device(user, x) in s.subs && t.subs[Device(user, x)] == s.subs[Device(user, x)]
      && x in QueuesOf(s, user) && expected[x] == QueuesOf(s, user)[x]
    requires ip in expected ==> expected[ip] == [] && t.subs[Device(user, ip)].queue == []
    ensures QueuesOf(t, user) == expected
  {
    hide QueuesOf;
    QueuePerDevice(t, user);
    assert QueuesOf(t, user).Keys == expected.Keys;
    forall x | x in expected
      ensures QueuesOf(t, user)[x] == expected[x]
    {
      QueueAt(t, user, x);
      if x != ip { QueueAt(s, user, x); }
    }
  }

  lemma JoinQueues(s: State, user: string, ip: string, left: Store)
    requires Enabled(s, Join(Device(user, ip), left))
    ensures QueuesOf(Next(s, Join(Device(user, ip), left)), user) == QueuesOf(s, user)[ip := []]
  {
    hide QueuesOf;
    QueuePerDevice(s, user);
    QueuesFollow(s, Next(s, Join(Device(user, ip), left)), user, ip, QueuesOf(s, user)[ip := []]);
  }

  lemma LeaveQueues(s: State, user: string, ip: string)
    requires Enabled(s, Leave(Device(user, ip)))
    ensures QueuesOf(Next(s, Leave(Device(user, ip))), user) == QueuesOf(s, user) - {ip}
  {
    hide QueuesOf;
    QueuePerDevice(s, user);
    QueuesFollow(s, Next(s, Leave(Device(user, ip))), user, ip, QueuesOf(s, user) - {ip});
  }

  /**
   * A device joins and leaves the engine exactly as addClientConnection and removeClientConnection let it:
   * a new address with fewer than two connected gets an empty queue, and leaving takes just that queue.
   */
  lemma DeviceQueuesComeAndGo(s: State, user: string, ip: string, left: Store)
    requires forall k | k in left :: k.user == user
    ensures Enabled(s, Join(Device(user, ip), left)) <==> ip !in QueuesOf(s, user) && |QueuesOf(s, user)| < 2
    ensures Enabled(s, Join(Device(user, ip), left)) ==>
      QueuesOf(Next(s, Join(Device(user, ip), left)), user) == QueuesOf(s, user)[ip := []]
    ensures Enabled(s, Leave(Device(user, ip))) <==> ip in QueuesOf(s, user)
    ensures Enabled(s, Leave(Device(user, ip))) ==>
      QueuesOf(Next(s, Leave(Device(user, ip))), user) == QueuesOf(s, user) - {ip}
  {
    hide Next, QueuesOf;
    QueuePerDevice(s, user);
    if Enabled(s, Join(Device(user, ip), left)) { JoinQueues(s, user, ip, left); }
    if Enabled(s, Leave(Device(user, ip))) { LeaveQueues(s, user, ip); }
  }
}
