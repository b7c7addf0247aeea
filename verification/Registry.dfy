/**
 * The backup registry of a primary (backupConnectionHandler.hpp, backupConnection.hpp and
 * backupState.hpp): connections by address, the published node list, the client addresses and
 * the dirty flags that make the monitors publish both lists.
 */
module Registry {
  import opened Bytes
  import opened Payloads
  import opened BackupStream
  import opened Replication
  import opened ChangeQueues

  datatype Conn = Conn(id: int, connections: nat, ipsChanged: bool, nodesChanged: bool)

  /** `nextId` counts the ids this process has handed out. */
  datatype Core = Core(
    serverId: int, nextId: nat, conns: map<string, Conn>, nodes: seq<Node>, clientIps: seq<string>)

  /** With history: the live sockets of an address, and the ids and lists sent to it since it was added. */
  datatype Tracked = Tracked(core: Core, live: map<string, nat>, wire: map<string, seq<ReplicaOp>>)

  datatype Event =
    | Connect(ip: string)
    | Disconnect(ip: string)
    | ClientJoins(ip: string)
    | ClientLeaves(ip: string)
    | PublishNodes(ip: string)
    | PublishIps(ip: string)

  // ---- one operation ----

  function MarkNodes(conns: map<string, Conn>): map<string, Conn> {
    map ip | ip in conns :: conns[ip].(nodesChanged := true)
  }

  function MarkIps(conns: map<string, Conn>): map<string, Conn> {
    map ip | ip in conns :: conns[ip].(ipsChanged := true)
  }

  /** erase-remove with the comparison of nodes, which looks at the address only. */
  function WithoutIp(nodes: seq<Node>, ip: string): seq<Node> {
    if nodes == [] then []
    else WithoutIp(nodes[..|nodes| - 1], ip) + if nodes[|nodes| - 1].ip == ip then [] else [nodes[|nodes| - 1]]
  }

  function Without(ips: seq<string>, ip: string): seq<string> {
    if ips == [] then []
    else Without(ips[..|ips| - 1], ip) + if ips[|ips| - 1] == ip then [] else [ips[|ips| - 1]]
  }

  function AddBackup(r: Core, ip: string): Core {
    if ip in r.conns then
      r.(conns := r.conns[ip := r.conns[ip].(connections := r.conns[ip].connections + 1)])
    else
      var id := r.serverId + r.nextId + 1;
      r.(nextId := r.nextId + 1,
         conns := MarkNodes(r.conns[ip := Conn(id, 0, true, true)]),
         nodes := r.nodes + [Node(ip, id)])
  }

  function RemoveBackup(r: Core, ip: string): Core {
    if ip !in r.conns then r
    else if r.conns[ip].connections > 0 then
      r.(conns := r.conns[ip := r.conns[ip].(connections := r.conns[ip].connections - 1)])
    else
      r.(conns := MarkNodes(r.conns) - {ip}, nodes := WithoutIp(r.nodes, ip))
  }

  function AddClientIp(r: Core, ip: string): Core {
    r.(clientIps := r.clientIps + [ip], conns := MarkIps(r.conns))
  }

  function RemoveClientIp(r: Core, ip: string): Core {
    r.(clientIps := Without(r.clientIps, ip), conns := MarkIps(r.conns))
  }

  function Live(t: Tracked, ip: string): nat {
    if ip in t.live then t.live[ip] else 0
  }

  function Wire(t: Tracked, ip: string): seq<ReplicaOp> {
    if ip in t.wire then t.wire[ip] else []
  }

  /** One more id or list on the stream of an address. */
  function Written(t: Tracked, ip: string, op: ReplicaOp): map<string, seq<ReplicaOp>> {
    t.wire[ip := (if ip in t.core.conns then Wire(t, ip) else []) + [op]]
  }

  /** One remove per add; a monitor publishes a list when its flag is up. */
  predicate Possible(t: Tracked, e: Event) {
    match e
    case Disconnect(ip) => Live(t, ip) > 0
    case PublishNodes(ip) => ip in t.core.conns && t.core.conns[ip].nodesChanged
    case PublishIps(ip) => ip in t.core.conns && t.core.conns[ip].ipsChanged
    case _ => true
  }

  function After(t: Tracked, e: Event): Tracked
    requires Possible(t, e)
  {
    match e
    case Connect(ip) =>
      var added := AddBackup(t.core, ip);
      Tracked(added, t.live[ip := Live(t, ip) + 1], Written(t, ip, SendId(added.conns[ip].id)))
    case Disconnect(ip) => t.(core := RemoveBackup(t.core, ip), live := t.live[ip := Live(t, ip) - 1])
    case ClientJoins(ip) => t.(core := AddClientIp(t.core, ip))
    case ClientLeaves(ip) => t.(core := RemoveClientIp(t.core, ip))
    case PublishNodes(ip) =>
      t.(core := t.core.(conns := t.core.conns[ip := t.core.conns[ip].(nodesChanged := false)]),
         wire := Written(t, ip, SendNodes(t.core.nodes)))
    case PublishIps(ip) =>
      t.(core := t.core.(conns := t.core.conns[ip := t.core.conns[ip].(ipsChanged := false)]),
         wire := Written(t, ip, SendIps(t.core.clientIps)))
  }

  function Events(t: Tracked, es: seq<Event>): Option<Tracked>
    decreases |es|
  {
    if es == [] then Some(t)
    else if !Possible(t, es[0]) then None
    else Events(After(t, es[0]), es[1..])
  }

  /** A process that has just become primary, its lists reset before the first accept. */
  function Begin(serverId: int): Tracked {
    Tracked(Core(serverId, 0, map[], [], []), map[], map[])
  }

  // ---- the invariant ----

  function Ids(conns: map<string, Conn>): map<string, int> {
    map ip | ip in conns :: conns[ip].id
  }

  /** In the order in which ids were handed out, no address twice. */
  ghost predicate Ascending(nodes: seq<Node>) {
    forall i, j | 0 <= i < j < |nodes| :: nodes[i].id < nodes[j].id && nodes[i].ip != nodes[j].ip
  }

  /** One node per connection, with the same id, within the ids handed out so far. */
  ghost predicate Lists(nodes: seq<Node>, ids: map<string, int>, low: int, high: int) {
    && Ascending(nodes)
    && (forall n | n in nodes :: n.ip in ids && ids[n.ip] == n.id && low < n.id <= high)
    && (forall ip | ip in ids :: Node(ip, ids[ip]) in nodes)
  }

  ghost predicate Agrees(r: Core) {
    Lists(r.nodes, Ids(r.conns), r.serverId, r.serverId + r.nextId)
  }

  ghost predicate Counted(t: Tracked) {
    forall ip ::
      && (ip in t.core.conns <==> Live(t, ip) > 0)
      && (ip in t.core.conns ==> Live(t, ip) == t.core.conns[ip].connections + 1)
  }

  /** Every backup was told its id, and a lowered flag means that the list last sent is the list of now. */
  predicate UpToDate(r: Core, conn: Conn, sent: seq<ReplicaOp>) {
    && LastId(sent) == Some(conn.id)
    && (!conn.nodesChanged ==> LastNodes(sent) == Some(r.nodes))
    && (!conn.ipsChanged ==> LastIps(sent) == Some(r.clientIps))
  }

  ghost predicate Published(t: Tracked) {
    forall ip | ip in t.core.conns :: UpToDate(t.core, t.core.conns[ip], Wire(t, ip))
  }

  ghost predicate Sound(t: Tracked) {
    Agrees(t.core) && Counted(t) && Published(t)
  }

  lemma WithoutIpEmpty(ip: string)
    ensures WithoutIp([], ip) == [] && Ascending([])
  {}

  lemma AscendingFront(nodes: seq<Node>)
    requires Ascending(nodes) && nodes != []
    ensures Ascending(nodes[..|nodes| - 1])
    ensures forall n | n in nodes[..|nodes| - 1] :: n.id < nodes[|nodes| - 1].id && n.ip != nodes[|nodes| - 1].ip
  {}

  lemma AscendingAppend(nodes: seq<Node>, last: Node)
    requires Ascending(nodes) && forall n | n in nodes :: n.id < last.id && n.ip != last.ip
    ensures Ascending(nodes + [last]) && nodes + [] == nodes
  {}

  lemma {:induction false} WithoutIpKeeps(nodes: seq<Node>, ip: string)
    requires Ascending(nodes)
    ensures forall n :: n in WithoutIp(nodes, ip) <==> n in nodes && n.ip != ip
    ensures Ascending(WithoutIp(nodes, ip))
  {
    hide Ascending;
    WithoutIpEmpty(ip);
    if nodes != [] {
      var front, last := nodes[..|nodes| - 1], nodes[|nodes| - 1];
      AscendingFront(nodes);
      WithoutIpKeeps(front, ip);
      assert nodes == front + [last];
      AscendingAppend(WithoutIp(front, ip), last);
    }
  }

  lemma ListsAppend(nodes: seq<Node>, ids: map<string, int>, low: int, high: int, ip: string)
    requires Lists(nodes, ids, low, high) && ip !in ids && low <= high
    ensures Lists(nodes + [Node(ip, high + 1)], ids[ip := high + 1], low, high + 1)
  {
    var more := nodes + [Node(ip, high + 1)];
    assert more[|nodes|] == Node(ip, high + 1);
    forall i, j | 0 <= i < j < |more|
      ensures more[i].id < more[j].id && more[i].ip != more[j].ip
    {
      assert more[i] in nodes;
    }
    assert forall n | n in nodes :: n in more;
  }

  lemma ListsRemove(nodes: seq<Node>, ids: map<string, int>, low: int, high: int, ip: string)
    requires Lists(nodes, ids, low, high)
    ensures Lists(WithoutIp(nodes, ip), ids - {ip}, low, high)
  {
    WithoutIpKeeps(nodes, ip);
  }

  lemma AddBackupAgrees(r: Core, ip: string)
    requires Agrees(r)
    ensures Agrees(AddBackup(r, ip))
  {
    hide Lists;
    var q := AddBackup(r, ip);
    if ip !in r.conns {
      ListsAppend(r.nodes, Ids(r.conns), r.serverId, r.serverId + r.nextId, ip);
      assert Ids(q.conns) == Ids(r.conns)[ip := r.serverId + r.nextId + 1];
    } else {
      assert Ids(q.conns) == Ids(r.conns);
    }
  }

  lemma RemoveBackupAgrees(r: Core, ip: string)
    requires Agrees(r)
    ensures Agrees(RemoveBackup(r, ip))
  {
    hide Lists;
    var q := RemoveBackup(r, ip);
    if ip in r.conns && r.conns[ip].connections == 0 {
      ListsRemove(r.nodes, Ids(r.conns), r.serverId, r.serverId + r.nextId, ip);
      assert Ids(q.conns) == Ids(r.conns) - {ip};
    } else {
      assert Ids(q.conns) == Ids(r.conns);
    }
  }

  lemma AgreesAfter(t: Tracked, e: Event)
    requires Agrees(t.core) && Possible(t, e)
    ensures Agrees(After(t, e).core)
  {
    hide Lists, AddBackup, RemoveBackup;
    match e {
      case Connect(ip) => AddBackupAgrees(t.core, ip);
      case Disconnect(ip) => RemoveBackupAgrees(t.core, ip);
      case _ => assert Ids(After(t, e).core.conns) == Ids(t.core.conns);
    }
  }

  lemma SoundAfter(t: Tracked, e: Event)
    requires Sound(t) && Possible(t, e)
    ensures Sound(After(t, e))
  {
    hide WithoutIp, Without, Lists;
    AgreesAfter(t, e);
    CountedAfter(t, e);
    PublishedAfter(t, e);
  }

  lemma CountedAfter(t: Tracked, e: Event)
    requires Counted(t) && Possible(t, e)
    ensures Counted(After(t, e))
  {
    hide WithoutIp, Without;
  }

  lemma PublishedAfter(t: Tracked, e: Event)
    requires Published(t) && Possible(t, e)
    ensures Published(After(t, e))
  {
    hide WithoutIp, Without, LastId, LastNodes, LastIps;
    var t' := After(t, e);
    if e.Connect? {
      LastSnoc(Wire(t, e.ip), SendId(t'.core.conns[e.ip].id));
      LastSnoc([], SendId(t'.core.conns[e.ip].id));
    }
    LastSnoc(Wire(t, e.ip), SendNodes(t.core.nodes));
    LastSnoc(Wire(t, e.ip), SendIps(t.core.clientIps));
    forall ip | ip in t'.core.conns
      ensures UpToDate(t'.core, t'.core.conns[ip], Wire(t', ip))
    {
      assert ip in t.core.conns ==> UpToDate(t.core, t.core.conns[ip], Wire(t, ip));
    }
  }

  lemma {:induction false} SoundEvents(t: Tracked, es: seq<Event>)
    requires Sound(t) && Events(t, es).Some?
    ensures Sound(Events(t, es).value)
    ensures Events(t, es).value.core.serverId == t.core.serverId
    decreases |es|
  {
    if es != [] {
      SoundAfter(t, es[0]);
      SoundEvents(After(t, es[0]), es[1..]);
    }
  }

  // ---- what holds after any history ----

  /** Node list and connection map agree, and the reference counts count the live sockets. */
  lemma RegistryAgrees(serverId: int, es: seq<Event>)
    requires Events(Begin(serverId), es).Some?
    ensures var t := Events(Begin(serverId), es).value;
      && |t.core.nodes| == |t.core.conns|
      && (forall ip :: ip in t.core.conns <==> exists id :: Node(ip, id) in t.core.nodes)
      && (forall n | n in t.core.nodes :: n.ip in t.core.conns && t.core.conns[n.ip].id == n.id)
      && (forall ip :: ip in t.core.conns <==> Live(t, ip) > 0)
      && (forall ip | ip in t.core.conns :: Live(t, ip) == t.core.conns[ip].connections + 1)
  {
    SoundEvents(Begin(serverId), es);
    var t := Events(Begin(serverId), es).value;
    DistinctIps(t.core.nodes);
    forall ip | ip in t.core.conns
      ensures Node(ip, t.core.conns[ip].id) in t.core.nodes
    {
      assert Ids(t.core.conns)[ip] == t.core.conns[ip].id;
    }
    assert (set n | n in t.core.nodes :: n.ip) == t.core.conns.Keys;
  }

  lemma {:induction false} DistinctIps(nodes: seq<Node>)
    requires Ascending(nodes)
    ensures |set n | n in nodes :: n.ip| == |nodes|
  {
    if nodes != [] {
      var front, last := nodes[..|nodes| - 1], nodes[|nodes| - 1];
      DistinctIps(front);
      assert nodes == front + [last];
      assert (set n | n in nodes :: n.ip) == (set n | n in front :: n.ip) + {last.ip};
      assert forall n | n in front :: n.ip != last.ip;
      assert last.ip !in (set n | n in front :: n.ip);
    }
  }

  /** The ids listed are distinct, above the primary's own, and below the next one to be handed out. */
  lemma IdsAreDistinctAndAbove(serverId: int, es: seq<Event>)
    requires Events(Begin(serverId), es).Some?
    ensures var r := Events(Begin(serverId), es).value.core;
      && (forall i, j | 0 <= i < j < |r.nodes| :: r.nodes[i].id < r.nodes[j].id && r.nodes[i].ip != r.nodes[j].ip)
      && (forall n | n in r.nodes :: serverId < n.id < serverId + r.nextId + 1)
  {
    SoundEvents(Begin(serverId), es);
  }

  /** Every connected backup was told its own id; a backup whose flag is down was last sent the list of now. */
  lemma QuietRegistryIsPublished(serverId: int, es: seq<Event>)
    requires Events(Begin(serverId), es).Some?
    ensures var t := Events(Begin(serverId), es).value;
      forall ip | ip in t.core.conns ::
        && LastId(Wire(t, ip)) == Some(t.core.conns[ip].id)
        && (!t.core.conns[ip].nodesChanged ==> LastNodes(Wire(t, ip)) == Some(t.core.nodes))
        && (!t.core.conns[ip].ipsChanged ==> LastIps(Wire(t, ip)) == Some(t.core.clientIps))
  {
    SoundEvents(Begin(serverId), es);
    var t := Events(Begin(serverId), es).value;
    forall ip | ip in t.core.conns
      ensures UpToDate(t.core, t.core.conns[ip], Wire(t, ip))
    {}
  }

  // ---- the ids handed out ----

  /** The ids of the nodes that a history puts on the list, in order. */
  function HandedOut(t: Tracked, es: seq<Event>): seq<int>
    decreases |es|
  {
    if es == [] || !Possible(t, es[0]) then []
    else
      (if es[0].Connect? && es[0].ip !in t.core.conns then [After(t, es[0]).core.conns[es[0].ip].id] else [])
      + HandedOut(After(t, es[0]), es[1..])
  }

  lemma NumberAfter(t: Tracked, e: Event)
    requires Possible(t, e)
    ensures After(t, e).core.serverId == t.core.serverId
    ensures After(t, e).core.nextId
      == t.core.nextId + if e.Connect? && e.ip !in t.core.conns then 1 else 0
    ensures e.Connect? && e.ip !in t.core.conns ==>
      After(t, e).core.conns[e.ip].id == t.core.serverId + t.core.nextId + 1
  {
    hide WithoutIp, Without;
  }

  lemma {:induction false} NumberedFrom(t: Tracked, es: seq<Event>)
    requires Events(t, es).Some?
    ensures var r := Events(t, es).value.core;
      && r.nextId == t.core.nextId + |HandedOut(t, es)|
      && forall i | 0 <= i < |HandedOut(t, es)| :: HandedOut(t, es)[i] == t.core.serverId + t.core.nextId + 1 + i
    decreases |es|
  {
    hide After, Possible;
    if es != [] {
      NumberAfter(t, es[0]);
      NumberedFrom(After(t, es[0]), es[1..]);
    }
  }

  /** Whatever comes and goes, a primary numbers its backups upwards from its own id, each number once. */
  lemma IdsAreNumberedInOrder(serverId: int, es: seq<Event>)
    requires Events(Begin(serverId), es).Some?
    ensures var ids := HandedOut(Begin(serverId), es);
      && |ids| == Events(Begin(serverId), es).value.core.nextId
      && (forall i | 0 <= i < |ids| :: ids[i] == serverId + 1 + i)
      && (forall id :: id in ids <==> serverId < id <= serverId + |ids|)
  {
    NumberedFrom(Begin(serverId), es);
    var ids := HandedOut(Begin(serverId), es);
    forall id | serverId < id <= serverId + |ids|
      ensures id in ids
    {
      assert ids[id - serverId - 1] == id;
    }
  }

  /** Anybody may connect and any client come and go at any time; the rest is up to what is live and what is flagged. */
  lemma WhatMayHappen(t: Tracked, ip: string)
    ensures Possible(t, Connect(ip)) && Possible(t, ClientJoins(ip)) && Possible(t, ClientLeaves(ip))
    ensures Possible(t, Disconnect(ip)) <==> Live(t, ip) > 0
    ensures Possible(t, PublishNodes(ip)) <==> ip in t.core.conns && t.core.conns[ip].nodesChanged
    ensures Possible(t, PublishIps(ip)) <==> ip in t.core.conns && t.core.conns[ip].ipsChanged
  {}

  // ---- the clients, from the events alone ----

  /** The client that event `i` brings has not left since. */
  predicate StillThere(es: seq<Event>, i: nat)
    requires i < |es|
  {
    es[i].ClientJoins? && forall j | i < j < |es| :: es[j] != ClientLeaves(es[i].ip)
  }

  /** The addresses of the clients that the first `n` events bring and that have not left since, in order of arrival. */
  function Arrived(es: seq<Event>, n: nat): seq<string>
    requires n <= |es|
  {
    if n == 0 then [] else Arrived(es, n - 1) + if StillThere(es, n - 1) then [es[n - 1].ip] else []
  }

  lemma {:induction false} EventsSnoc(t: Tracked, es: seq<Event>, e: Event)
    ensures Events(t, es + [e]) == match Events(t, es) {
      case None => None
      case Some(u) => if Possible(u, e) then Some(After(u, e)) else None
    }
    decreases |es|
  {
    hide Possible, After;
    if es == [] {
      assert ([] + [e])[1..] == [];
    } else {
      assert (es + [e])[1..] == es[1..] + [e];
      if Possible(t, es[0]) { EventsSnoc(After(t, es[0]), es[1..], e); }
    }
  }

  lemma WithoutSnoc(ips: seq<string>, x: string, ip: string)
    ensures Without(ips + [x], ip) == Without(ips, ip) + if x == ip then [] else [x]
  {
    assert (ips + [x])[..|ips|] == ips;
  }

  lemma {:induction false} ArrivedAfter(es: seq<Event>, e: Event, n: nat)
    requires n <= |es|
    ensures Arrived(es + [e], n)
      == if e.ClientLeaves? then Without(Arrived(es, n), e.ip) else Arrived(es, n)
  {
    hide Without;
    if n == 0 {
      WithoutNobody(e.ip);
    } else {
      ArrivedAfter(es, e, n - 1);
      var i := n - 1;
      assert (es + [e])[i] == es[i];
      StillThereAfter(es, e, i);
      if StillThere(es, i) { WithoutSnoc(Arrived(es, i), es[i].ip, e.ip); }
      assert Arrived(es, i) + [] == Arrived(es, i);
      assert Without(Arrived(es, i), e.ip) + [] == Without(Arrived(es, i), e.ip);
    }
  }

  lemma WithoutNobody(ip: string)
    ensures Without([], ip) == []
  {}

  lemma StillThereAfter(es: seq<Event>, e: Event, i: nat)
    requires i < |es|
    ensures StillThere(es + [e], i) <==> StillThere(es, i) && e != ClientLeaves(es[i].ip)
  {
    var more := es + [e];
    assert forall j | 0 <= j < |es| :: more[j] == es[j];
    assert more[|es|] == e;
  }

  lemma ClientIpsAfter(t: Tracked, e: Event)
    requires Possible(t, e)
    ensures After(t, e).core.clientIps == match e {
      case ClientJoins(ip) => t.core.clientIps + [ip]
      case ClientLeaves(ip) => Without(t.core.clientIps, ip)
      case _ => t.core.clientIps
    }
  {
    hide Without, WithoutIp;
  }

  /** After any history the client addresses are those of the clients that came and have not left since, in order. */
  lemma {:induction false} ClientsAreThoseStillThere(serverId: int, es: seq<Event>)
    requires Events(Begin(serverId), es).Some?
    ensures Events(Begin(serverId), es).value.core.clientIps == Arrived(es, |es|)
    decreases |es|
  {
    hide After, Possible, Without, Events;
    if es == [] {
      NoEvents(serverId);
    } else {
      var before, e := es[..|es| - 1], es[|es| - 1];
      assert es == before + [e];
      EventsSnoc(Begin(serverId), before, e);
      ClientsAreThoseStillThere(serverId, before);
      ClientIpsAfter(Events(Begin(serverId), before).value, e);
      ArrivedAfter(before, e, |before|);
      assert e.ClientJoins? <==> StillThere(es, |before|);
    }
  }

  lemma NoEvents(serverId: int)
    ensures Events(Begin(serverId), []) == Some(Begin(serverId))
  {}

  /** How often an address is listed: once for every time it came since it last left. */
  function Comings(es: seq<Event>, ip: string): nat {
    if es == [] then 0
    else if es[|es| - 1] == ClientLeaves(ip) then 0
    else Comings(es[..|es| - 1], ip) + if es[|es| - 1] == ClientJoins(ip) then 1 else 0
  }

  lemma {:induction false} WithoutCounts(ips: seq<string>, ip: string, x: string)
    ensures multiset(Without(ips, ip))[x] == if x == ip then 0 else multiset(ips)[x]
  {
    if ips != [] {
      var front, last := ips[..|ips| - 1], ips[|ips| - 1];
      assert ips == front + [last];
      WithoutCounts(front, ip, x);
    }
  }

  lemma {:induction false} ClientsAreCounted(serverId: int, es: seq<Event>, x: string)
    requires Events(Begin(serverId), es).Some?
    ensures multiset(Events(Begin(serverId), es).value.core.clientIps)[x] == Comings(es, x)
    decreases |es|
  {
    hide After, Possible, Without, Events;
    if es == [] {
      NoEvents(serverId);
    } else {
      var before, e := es[..|es| - 1], es[|es| - 1];
      assert es == before + [e];
      EventsSnoc(Begin(serverId), before, e);
      ClientsAreCounted(serverId, before, x);
      var t := Events(Begin(serverId), before).value;
      ClientIpsAfter(t, e);
      if e.ClientLeaves? { WithoutCounts(t.core.clientIps, e.ip, x); }
    }
  }

  // ---- the backups, from the events alone ----

  function Count(es: seq<Event>, e: Event): nat {
    if es == [] then 0 else Count(es[..|es| - 1], e) + if es[|es| - 1] == e then 1 else 0
  }

  lemma LiveAfter(t: Tracked, e: Event, ip: string)
    requires Possible(t, e)
    ensures Live(After(t, e), ip)
      == Live(t, ip) + (if e == Connect(ip) then 1 else 0) - (if e == Disconnect(ip) then 1 else 0)
  {
    hide AddBackup, RemoveBackup, AddClientIp, RemoveClientIp;
  }

  lemma {:induction false} LiveIsCounted(serverId: int, es: seq<Event>, ip: string)
    requires Events(Begin(serverId), es).Some?
    ensures Live(Events(Begin(serverId), es).value, ip) == Count(es, Connect(ip)) - Count(es, Disconnect(ip))
    decreases |es|
  {
    hide After, Possible, Live, Events;
    if es == [] {
      NoEvents(serverId);
      NobodyLive(serverId, ip);
    } else {
      var before, e := es[..|es| - 1], es[|es| - 1];
      assert es == before + [e];
      EventsSnoc(Begin(serverId), before, e);
      LiveIsCounted(serverId, before, ip);
      LiveAfter(Events(Begin(serverId), before).value, e, ip);
    }
  }

  lemma NobodyLive(serverId: int, ip: string)
    ensures Live(Begin(serverId), ip) == 0
  {}

  /** An address is on the published list exactly while it has connected more often than it has disconnected. */
  lemma ListedExactlyWhileConnected(serverId: int, es: seq<Event>, ip: string)
    requires Events(Begin(serverId), es).Some?
    ensures Count(es, Connect(ip)) >= Count(es, Disconnect(ip))
    ensures (exists id :: Node(ip, id) in Events(Begin(serverId), es).value.core.nodes)
      <==> Count(es, Connect(ip)) > Count(es, Disconnect(ip))
  {
    hide Events, Live;
    LiveIsCounted(serverId, es, ip);
    RegistryAgrees(serverId, es);
  }

  // ---- the flags ----

  /** The node list changes when an address is added or its last socket goes, and the client list with the clients. */
  predicate ChangesNodes(t: Tracked, e: Event) {
    (e.Connect? && e.ip !in t.core.conns) || (e.Disconnect? && Live(t, e.ip) == 1)
  }

  /** A flag goes up with its own list and down with its own message, and with nothing else. */
  lemma FlagsMoveExactly(t: Tracked, e: Event, ip: string)
    requires Counted(t) && Possible(t, e) && ip in t.core.conns && ip in After(t, e).core.conns
    ensures var before, after := t.core.conns[ip], After(t, e).core.conns[ip];
      && after.nodesChanged == (ChangesNodes(t, e) || (before.nodesChanged && e != PublishNodes(ip)))
      && after.ipsChanged == (e.ClientJoins? || e.ClientLeaves? || (before.ipsChanged && e != PublishIps(ip)))
  {
    hide WithoutIp, Without;
  }

  // ---- the classes ----

  datatype BackupConnection = BackupConnection(
    id: int, connections: nat, fileChangesQueue: AtomicQueue<Change>, ipsChanged: bool, nodesChanged: bool)

  class BackupState {
    var serverId: int
    var primaryServerAddress: string
    var connectedClientIps: seq<string>
    var connectedBackupNodes: seq<Node>

    constructor ()
      ensures serverId == 0 && primaryServerAddress == "localhost"
      ensures connectedClientIps == [] && connectedBackupNodes == []
    {
      serverId, primaryServerAddress := 0, "localhost";
      connectedClientIps, connectedBackupNodes := [], [];
    }

    method EraseNode(ip: string)
      modifies this`connectedBackupNodes
      ensures connectedBackupNodes == WithoutIp(old(connectedBackupNodes), ip)
    {
      var kept := [];
      for i := 0 to |connectedBackupNodes|
        invariant connectedBackupNodes == old(connectedBackupNodes)
        invariant kept == WithoutIp(connectedBackupNodes[..i], ip)
      {
        assert connectedBackupNodes[..i + 1][..i] == connectedBackupNodes[..i];
        if connectedBackupNodes[i].ip != ip {
          kept := kept + [connectedBackupNodes[i]];
        }
      }
      assert connectedBackupNodes[..|connectedBackupNodes|] == connectedBackupNodes;
      connectedBackupNodes := kept;
    }

    method EraseClientIp(ip: string)
      modifies this`connectedClientIps
      ensures connectedClientIps == Without(old(connectedClientIps), ip)
    {
      var kept := [];
      for i := 0 to |connectedClientIps|
        invariant connectedClientIps == old(connectedClientIps)
        invariant kept == Without(connectedClientIps[..i], ip)
      {
        assert connectedClientIps[..i + 1][..i] == connectedClientIps[..i];
        if connectedClientIps[i] != ip {
          kept := kept + [connectedClientIps[i]];
        }
      }
      assert connectedClientIps[..|connectedClientIps|] == connectedClientIps;
      connectedClientIps := kept;
    }
  }

  /** The connections without their queues. */
  function Seen(conns: map<string, BackupConnection>): map<string, Conn> {
    map ip | ip in conns ::
      Conn(conns[ip].id, conns[ip].connections, conns[ip].ipsChanged, conns[ip].nodesChanged)
  }

  function RaiseNodes(conns: map<string, BackupConnection>): map<string, BackupConnection> {
    map ip | ip in conns :: conns[ip].(nodesChanged := true)
  }

  function RaiseIps(conns: map<string, BackupConnection>): map<string, BackupConnection> {
    map ip | ip in conns :: conns[ip].(ipsChanged := true)
  }

  function QueuesIn(conns: map<string, BackupConnection>): map<string, AtomicQueue<Change>> {
    map ip | ip in conns :: conns[ip].fileChangesQueue
  }

  /** A queue that belongs to this address, or to none, keeps the queues apart. */
  lemma StillSeparate(conns: map<string, BackupConnection>, ip: string, c: BackupConnection)
    requires Separate(QueuesIn(conns))
    requires forall x | x in conns && x != ip :: conns[x].fileChangesQueue != c.fileChangesQueue
    ensures Separate(QueuesIn(conns[ip := c]))
  {
    var before, after := QueuesIn(conns), QueuesIn(conns[ip := c]);
    forall a, b | a in after && b in after && a != b
      ensures after[a] != after[b]
    {
      if a != ip && b != ip { assert before[a] != before[b]; }
    }
  }

  lemma OwnQueue(conns: map<string, BackupConnection>, ip: string)
    requires Separate(QueuesIn(conns)) && ip in conns
    ensures forall x | x in conns && x != ip :: conns[x].fileChangesQueue != conns[ip].fileChangesQueue
  {
    forall x | x in conns && x != ip
      ensures conns[x].fileChangesQueue != conns[ip].fileChangesQueue
    {
      assert QueuesIn(conns)[x] != QueuesIn(conns)[ip];
    }
  }

  lemma SeenRaised(conns: map<string, BackupConnection>)
    ensures Seen(RaiseNodes(conns)) == MarkNodes(Seen(conns))
    ensures Seen(RaiseIps(conns)) == MarkIps(Seen(conns))
  {}

  lemma SeenUpdated(conns: map<string, BackupConnection>, ip: string, c: BackupConnection)
    ensures Seen(conns[ip := c]) == Seen(conns)[ip := Conn(c.id, c.connections, c.ipsChanged, c.nodesChanged)]
    ensures Seen(conns - {ip}) == Seen(conns) - {ip}
  {}

  class BackupConnectionHandler {
    const backupState: BackupState
    var nextId: nat
    var backupConnections: map<string, BackupConnection>

    constructor (backupState: BackupState)
      ensures this.backupState == backupState && nextId == 0 && backupConnections == map[] && Valid()
    {
      this.backupState, nextId, backupConnections := backupState, 0, map[];
    }

    /** Every backup has a queue of its own. */
    ghost predicate Valid()
      reads this
    {
      Separate(QueuesIn(backupConnections))
    }

    ghost function View(): Core
      reads this, backupState
    {
      Core(backupState.serverId, nextId, Seen(backupConnections),
        backupState.connectedBackupNodes, backupState.connectedClientIps)
    }

    method GetNextId(primaryServerId: int) returns (id: int)
      modifies this`nextId
      ensures nextId == old(nextId) + 1 && id == primaryServerId + nextId
    {
      nextId := nextId + 1;
      id := primaryServerId + nextId;
    }

    /** A new address gets an empty queue, the next id and a place in the node list; every node flag goes up. */
    method AddBackupConnection(ip: string) returns (id: int)
      requires Valid()
      modifies this, backupState
      ensures Valid()
      ensures View() == AddBackup(old(View()), ip)
      ensures ip in backupConnections && id == backupConnections[ip].id
      ensures forall x | x in old(backupConnections) ::
        x in backupConnections && backupConnections[x].fileChangesQueue == old(backupConnections)[x].fileChangesQueue
      ensures ip !in old(backupConnections) ==>
        fresh(backupConnections[ip].fileChangesQueue) && backupConnections[ip].fileChangesQueue.items == []
    {
      hide Seen, MarkNodes, QueuesIn, Separate;
      if ip in backupConnections {
        var found := backupConnections[ip].(connections := backupConnections[ip].connections + 1);
        SeenUpdated(backupConnections, ip, found);
        OwnQueue(backupConnections, ip);
        StillSeparate(backupConnections, ip, found);
        SeenAt(backupConnections, ip);
        backupConnections := backupConnections[ip := found];
        return found.id;
      }
      SeenAt(backupConnections, ip);
      id := GetNextId(backupState.serverId);
      var queue := new AtomicQueue<Change>();
      var added := BackupConnection(id, 0, queue, true, true);
      SeenUpdated(backupConnections, ip, added);
      StillSeparate(backupConnections, ip, added);
      backupConnections := backupConnections[ip := added];
      backupState.connectedBackupNodes := backupState.connectedBackupNodes + [Node(ip, id)];
      SeenRaised(backupConnections);
      HasUpdatedConnectedBackupNodes();
    }

    /** The last socket of an address takes the connection and its node with it; every node flag goes up. */
    method RemoveBackupConnection(ip: string)
      requires Valid()
      modifies this, backupState
      ensures Valid()
      ensures View() == RemoveBackup(old(View()), ip)
      ensures forall x | x in backupConnections ::
        && x in old(backupConnections)
        && backupConnections[x].fileChangesQueue == old(backupConnections)[x].fileChangesQueue
    {
      hide Seen, MarkNodes;
      SeenAt(backupConnections, ip);
      if ip !in backupConnections {
        return;
      }
      if backupConnections[ip].connections > 0 {
        var found := backupConnections[ip].(connections := backupConnections[ip].connections - 1);
        SeenUpdated(backupConnections, ip, found);
        OwnQueue(backupConnections, ip);
        StillSeparate(backupConnections, ip, found);
        backupConnections := backupConnections[ip := found];
        return;
      }
      backupState.EraseNode(ip);
      SeenRaised(backupConnections);
      HasUpdatedConnectedBackupNodes();
      SeenUpdated(backupConnections, ip, backupConnections[ip]);
      backupConnections := backupConnections - {ip};
    }

    method AddConnectedClientIp(ip: string)
      requires Valid()
      modifies this`backupConnections, backupState
      ensures Valid()
      ensures View() == AddClientIp(old(View()), ip)
      ensures backupConnections == RaiseIps(old(backupConnections))
    {
      hide Seen, MarkIps, RaiseIps;
      backupState.connectedClientIps := backupState.connectedClientIps + [ip];
      SeenRaised(backupConnections);
      HasUpdatedConnectedClientIps();
    }

    method RemoveConnectedClientIp(ip: string)
      requires Valid()
      modifies this`backupConnections, backupState
      ensures Valid()
      ensures View() == RemoveClientIp(old(View()), ip)
      ensures backupConnections == RaiseIps(old(backupConnections))
    {
      hide Seen, MarkIps, RaiseIps, Without;
      backupState.EraseClientIp(ip);
      SeenRaised(backupConnections);
      HasUpdatedConnectedClientIps();
    }

    method HasUpdatedConnectedBackupNodes()
      requires Valid()
      modifies this`backupConnections
      ensures Valid()
      ensures backupConnections == RaiseNodes(old(backupConnections))
    {
      var todo := backupConnections.Keys;
      while todo != {}
        invariant todo <= backupConnections.Keys == old(backupConnections).Keys
        invariant forall ip | ip in backupConnections ::
          backupConnections[ip]
            == old(backupConnections)[ip].(nodesChanged := ip !in todo || old(backupConnections)[ip].nodesChanged)
        decreases todo
      {
        var ip :| ip in todo;
        backupConnections := backupConnections[ip := backupConnections[ip].(nodesChanged := true)];
        todo := todo - {ip};
      }
    }

    method HasUpdatedConnectedClientIps()
      requires Valid()
      modifies this`backupConnections
      ensures Valid()
      ensures backupConnections == RaiseIps(old(backupConnections))
    {
      var todo := backupConnections.Keys;
      while todo != {}
        invariant todo <= backupConnections.Keys == old(backupConnections).Keys
        invariant forall ip | ip in backupConnections ::
          backupConnections[ip]
            == old(backupConnections)[ip].(ipsChanged := ip !in todo || old(backupConnections)[ip].ipsChanged)
        decreases todo
      {
        var ip :| ip in todo;
        backupConnections := backupConnections[ip := backupConnections[ip].(ipsChanged := true)];
        todo := todo - {ip};
      }
    }

    method AddFileChange(change: Change)
      requires Valid()
      modifies QueuesIn(backupConnections).Values
      ensures Valid()
      ensures Items(QueuesIn(backupConnections)) == FanOut(old(Items(QueuesIn(backupConnections))), change, None)
    {
      PushToAll(QueuesIn(backupConnections), change, None);
    }
  }

  lemma SeenAt(conns: map<string, BackupConnection>, ip: string)
    ensures ip in Seen(conns) <==> ip in conns
    ensures ip in conns ==>
      Seen(conns)[ip] == Conn(conns[ip].id, conns[ip].connections, conns[ip].ipsChanged, conns[ip].nodesChanged)
  {}
}
