/**
 * From one primary to the next (server/src/main.cpp): what a primary published feeds the
 * election of its successor, and what the successor recovers from.
 */
module Failover {
  import opened Bytes
  import opened Payloads
  import opened BackupStream
  import opened Registry
  import BullyElection
  import Election
  import ElectionBounds

  // ---- what a backup holds ----

  /** A byte stream's operations are what was sent to `ip`, with file operations interleaved anywhere. */
  predicate Carries(t: Tracked, ip: string, ops: seq<ReplicaOp>) {
    ListOps(ops) == Wire(t, ip)
  }

  /** What a backup holds after consuming such a stream, whatever it held before. */
  function Held(c: Codec, v: BackupView, ops: seq<ReplicaOp>, chunkSize: nat): BackupView
    requires chunkSize > 0
  {
    Monitor(c, v, StreamOf(c, ToBackup, ops, chunkSize)).view
  }

  /**
   * After any history of a primary, a connected backup that has consumed its byte stream holds the id
   * the primary knows it by, and for each flag that is down the primary's own list; on the node list it
   * finds itself under the id that it holds.
   */
  lemma BackupHoldsPublishedLists(
    serverId: int, es: seq<Event>, ip: string, c: Codec, ops: seq<ReplicaOp>, chunkSize: nat, v: BackupView)
    requires Events(Begin(serverId), es).Some?
    requires ip in Events(Begin(serverId), es).value.core.conns
    requires Carries(Events(Begin(serverId), es).value, ip, ops)
    requires Payloads.Faithful(c) && chunkSize > 0 && !v.crashed
    requires forall op | op in ops :: SendableOp(c, op)
    ensures var t := Events(Begin(serverId), es).value;
      var held := Held(c, v, ops, chunkSize);
      && held.serverId == t.core.conns[ip].id
      && (!t.core.conns[ip].nodesChanged ==> held.nodes == t.core.nodes && Node(ip, held.serverId) in held.nodes)
      && (!t.core.conns[ip].ipsChanged ==> held.ips == t.core.clientIps)
  {
    hide Monitor, StreamOf, SendableOp, Events, LastId, LastIps, LastNodes, ListOps;
    var t := Events(Begin(serverId), es).value;
    SoundEvents(Begin(serverId), es);
    assert UpToDate(t.core, t.core.conns[ip], Wire(t, ip));
    StreamMeansOperations(c, ToBackup, v, ops, chunkSize);
    FilesDoNotTouchLists(v.ToDirect(), v.ToDirect(), ops);
    LastOnesAreHeld(v.ToDirect(), Wire(t, ip));
    assert Ids(t.core.conns)[ip] == t.core.conns[ip].id;
  }

  /** Every dirty flag is down. */
  predicate Quiet(t: Tracked) {
    forall ip | ip in t.core.conns :: !t.core.conns[ip].nodesChanged && !t.core.conns[ip].ipsChanged
  }

  /** Every connected backup, whatever it held, has been sent its ids, lists and files, and has lived through it. */
  ghost predicate Consumed(t: Tracked, c: Codec, views: map<string, BackupView>, streams: map<string, seq<ReplicaOp>>) {
    forall ip | ip in t.core.conns ::
      && ip in views && ip in streams && !views[ip].crashed && Carries(t, ip, streams[ip])
      && forall op | op in streams[ip] :: SendableOp(c, op)
  }

  /** Such a list satisfies all the election asks of it. */
  lemma PublishedListIsElectable(serverId: int, es: seq<Event>)
    requires Events(Begin(serverId), es).Some?
    requires Events(Begin(serverId), es).value.core.conns != map[]
    requires Election.SELF_WIN_IP !in Events(Begin(serverId), es).value.core.conns
    ensures Election.Proper(Events(Begin(serverId), es).value.core.nodes)
  {
    SoundEvents(Begin(serverId), es);
    var t := Events(Begin(serverId), es).value;
    var ip :| ip in t.core.conns;
    assert Node(ip, Ids(t.core.conns)[ip]) in t.core.nodes;
  }

  /**
   * The premises of the election, discharged: when the flags are down, all backups hold one and the same
   * list, the connected ones are exactly the nodes on it, and each holds the id that it has there.
   */
  lemma BackupsAgree(serverId: int, es: seq<Event>, c: Codec,
    views: map<string, BackupView>, streams: map<string, seq<ReplicaOp>>, chunkSize: nat)
    requires Events(Begin(serverId), es).Some? && Quiet(Events(Begin(serverId), es).value)
    requires Consumed(Events(Begin(serverId), es).value, c, views, streams)
    requires Payloads.Faithful(c) && chunkSize > 0
    ensures var t := Events(Begin(serverId), es).value;
      && (forall ip | ip in t.core.conns ::
            var held := Held(c, views[ip], streams[ip], chunkSize);
            && held.nodes == t.core.nodes && held.ips == t.core.clientIps && Node(ip, held.serverId) in held.nodes)
      && (forall k | 0 <= k < |t.core.nodes| ::
            var ip := t.core.nodes[k].ip;
            ip in t.core.conns && Held(c, views[ip], streams[ip], chunkSize).serverId == t.core.nodes[k].id)
  {
    hide Held, Carries, SendableOp, Events;
    var t := Events(Begin(serverId), es).value;
    forall ip | ip in t.core.conns
      ensures var held := Held(c, views[ip], streams[ip], chunkSize);
        && held.nodes == t.core.nodes && held.ips == t.core.clientIps && Node(ip, held.serverId) in held.nodes
        && held.serverId == t.core.conns[ip].id
    {
      BackupHoldsPublishedLists(serverId, es, ip, c, streams[ip], chunkSize, views[ip]);
    }
    SoundEvents(Begin(serverId), es);
    forall k | 0 <= k < |t.core.nodes|
      ensures t.core.nodes[k].ip in t.core.conns && t.core.conns[t.core.nodes[k].ip].id == t.core.nodes[k].id
    {
      assert t.core.nodes[k] in t.core.nodes && Ids(t.core.conns)[t.core.nodes[k].ip] == t.core.nodes[k].id;
    }
  }

  /** On what it holds, a backup's loops contact exactly the nodes that its process in the election contacts. */
  lemma HeldListsDriveTheElection(c: Election.Config, held: BackupView, i: nat, now: nat)
    requires Election.Proper(c.nodes) && i < |c.nodes| && held.nodes == c.nodes && held.serverId == c.nodes[i].id
    ensures forall m | m in Election.Challenges(c, i, now, |c.nodes|) :: m.to < |c.nodes|
    ensures BullyElection.Higher(held.nodes, held.serverId)
      == BullyElection.Recipients(c, Election.Challenges(c, i, now, |c.nodes|))
    ensures |BullyElection.Others(held.nodes, held.serverId)| == |c.nodes| - 1
    ensures forall k | 0 <= k < |c.nodes| && k != i :: c.nodes[k] in BullyElection.Others(held.nodes, held.serverId)
  {
    BullyElection.ChallengesAreHigher(c, i, now, |c.nodes|);
    BullyElection.CallsAreOthers(c, i, |c.nodes|);
    assert c.nodes[..|c.nodes|] == c.nodes;
  }

  /**
   * Registry, wire and election together: after any history of a primary whose flags are down, take the
   * election on the list that any one backup holds.  However it begins it goes on to an end, and every
   * end leaves exactly one new primary: the id that it holds is larger than the old primary's and than
   * any other backup holds, the client addresses it is going to dial are those of the clients that came
   * to the old primary and had not left when it died, in order, and every other backup has the winner's
   * address and stays a backup.
   */
  lemma FailoverElectsOnePrimary(serverId: int, es: seq<Event>, c: Codec,
    views: map<string, BackupView>, streams: map<string, seq<ReplicaOp>>, chunkSize: nat, any: string,
    timeout: nat, delay: nat, primary: string, steps: seq<Election.Step>)
    returns (more: seq<Election.Step>, w: nat)
    requires Events(Begin(serverId), es).Some? && Quiet(Events(Begin(serverId), es).value)
    requires Consumed(Events(Begin(serverId), es).value, c, views, streams)
    requires Payloads.Faithful(c) && chunkSize > 0
    requires any in Events(Begin(serverId), es).value.core.conns
    requires Election.SELF_WIN_IP !in Events(Begin(serverId), es).value.core.conns
    requires 2 * delay < timeout && primary != Election.SELF_WIN_IP
    requires var cfg := Election.Config(Held(c, views[any], streams[any], chunkSize).nodes, timeout, delay);
      Election.Run(cfg, Election.Init(cfg, primary), steps).Some?
    ensures var t := Events(Begin(serverId), es).value;
      var list := Held(c, views[any], streams[any], chunkSize).nodes;
      var cfg := Election.Config(list, timeout, delay);
      var end := Election.Run(cfg, Election.Init(cfg, primary), steps + more);
      && end.Some? && Election.Finished(cfg, end.value)
      && w < |list| == |end.value.address|
      && (forall k | 0 <= k < |list| :: list[k].ip in t.core.conns)
      && var winner := Held(c, views[list[w].ip], streams[list[w].ip], chunkSize);
      && winner.serverId > serverId && winner.ips == Arrived(es, |es|)
      && end.value.address[w] == Election.SELF_WIN_IP
      && (forall k | 0 <= k < |list| && k != w ::
            && Held(c, views[list[k].ip], streams[list[k].ip], chunkSize).serverId < winner.serverId
            && end.value.address[k] == list[w].ip && end.value.address[k] != Election.SELF_WIN_IP)
    ensures var list := Held(c, views[any], streams[any], chunkSize).nodes;
      var cfg := Election.Config(list, timeout, delay);
      Election.Finished(cfg, Election.Run(cfg, Election.Init(cfg, primary), steps).value) ==> more == []
  {
    hide Events, Held, Consumed, Quiet;
    var t := Events(Begin(serverId), es).value;
    BackupsAgree(serverId, es, c, views, streams, chunkSize);
    ClientsAreThoseStillThere(serverId, es);
    var cfg := Election.Config(t.core.nodes, timeout, delay);
    PublishedListIsElectable(serverId, es);
    more, w := ElectionBounds.EveryRunLeadsToOneWinner(cfg, primary, steps);
    SoundEvents(Begin(serverId), es);
    assert t.core.nodes[w] in t.core.nodes;
    TopIsLargest(cfg, w);
  }

  lemma TopIsLargest(c: Election.Config, w: nat)
    requires Election.Proper(c.nodes) && Election.Top(c, w)
    ensures c.nodes[w].ip != Election.SELF_WIN_IP
    ensures forall k | 0 <= k < |c.nodes| && k != w :: c.nodes[k].id < c.nodes[w].id
  {
    assert c.nodes[w] in c.nodes;
    forall k | 0 <= k < |c.nodes| && k != w
      ensures c.nodes[k].id < c.nodes[w].id
    {
      if k < w {} else {}
    }
  }

  // ---- successive primaries ----

  /** The life of one primary, up to its death: its id and everything that happened to its registry. */
  datatype Tenure = Tenure(primary: int, events: seq<Event>)

  predicate Lived(a: Tenure) {
    && Events(Begin(a.primary), a.events).Some?
    && Last(a).conns != map[] && Election.SELF_WIN_IP !in Last(a).conns
  }

  function Last(a: Tenure): Core
    requires Events(Begin(a.primary), a.events).Some?
  {
    Events(Begin(a.primary), a.events).value.core
  }

  /** `b` is a winner, perhaps one of several, of a finished election on any network among the backups that `a` left. */
  ghost predicate Elected(
    a: Tenure, b: Tenure, timeout: nat, delay: nat, primary: string, steps: seq<Election.Step>, w: nat)
  {
    && Lived(a)
    && var c := Election.Config(Last(a).nodes, timeout, delay);
      var end := Election.Run(c, Election.Init(c, primary), steps);
      && end.Some? && Election.Finished(c, end.value)
      && w < |end.value.procs| && end.value.procs[w].Won? && w < |c.nodes| && c.nodes[w].id == b.primary
  }

  ghost predicate Succeeds(a: Tenure, b: Tenure) {
    exists timeout: nat, delay: nat, primary: string, steps: seq<Election.Step>, w: nat ::
      Elected(a, b, timeout, delay, primary, steps, w)
  }

  /** The same where the timeout exceeds two delays. */
  ghost predicate SucceedsInTime(a: Tenure, b: Tenure) {
    exists timeout: nat, delay: nat, primary: string, steps: seq<Election.Step>, w: nat ::
      && Elected(a, b, timeout, delay, primary, steps, w)
      && 2 * delay < timeout && primary != Election.SELF_WIN_IP
  }

  /** A successor, on whatever network it was elected, has an id that its predecessor handed out. */
  lemma SuccessorIsAbove(a: Tenure, b: Tenure)
    requires Succeeds(a, b)
    ensures Lived(a) && a.primary < b.primary <= a.primary + Last(a).nextId
    ensures exists n | n in Last(a).nodes :: n.id == b.primary
  {
    hide Events, Election.Run, Election.Finished;
    var timeout: nat, delay: nat, primary: string, steps: seq<Election.Step>, w: nat :|
      Elected(a, b, timeout, delay, primary, steps, w);
    SoundEvents(Begin(a.primary), a.events);
    assert Last(a).nodes[w] in Last(a).nodes;
  }

  /** Every listed backup can be a successor, and nobody else: on a slow network all of them at once. */
  lemma SuccessorsAreTheListed(a: Tenure, b: Tenure)
    requires Lived(a)
    ensures Succeeds(a, b) <==> exists n | n in Last(a).nodes :: n.id == b.primary
  {
    hide Events, Election.Run, Election.Finished;
    if Succeeds(a, b) {
      SuccessorIsAbove(a, b);
    }
    if exists n | n in Last(a).nodes :: n.id == b.primary {
      var n :| n in Last(a).nodes && n.id == b.primary;
      var w :| 0 <= w < |Last(a).nodes| && Last(a).nodes[w] == n;
      PublishedListIsElectable(a.primary, a.events);
      var steps := ElectionBounds.SlowNetworkElectsEverybody(Election.Config(Last(a).nodes, 0, 0), "");
      assert Elected(a, b, 0, 0, "", steps, w);
    }
  }

  predicate Largest(nodes: seq<Node>, id: int) {
    (exists n | n in nodes :: n.id == id) && forall n | n in nodes :: n.id <= id
  }

  /** Where the timeout exceeds two delays the successor is the one with the largest listed id, and nobody else. */
  lemma SuccessorInTimeIsLargest(a: Tenure, b: Tenure)
    requires Lived(a)
    ensures SucceedsInTime(a, b) <==> Largest(Last(a).nodes, b.primary)
  {
    hide Events, Election.Run, Election.Finished;
    PublishedListIsElectable(a.primary, a.events);
    if SucceedsInTime(a, b) {
      var timeout: nat, delay: nat, primary: string, steps: seq<Election.Step>, w: nat :|
        && Elected(a, b, timeout, delay, primary, steps, w)
        && 2 * delay < timeout && primary != Election.SELF_WIN_IP;
      var c := Election.Config(Last(a).nodes, timeout, delay);
      Election.OnlyTheTopDeclaresVictory(c, primary, steps);
      assert Election.Top(c, w) && c.nodes[w] in c.nodes;
    }
    if Largest(Last(a).nodes, b.primary) {
      LargestSucceeds(a, b);
    }
  }

  lemma LargestSucceeds(a: Tenure, b: Tenure)
    requires Lived(a) && Largest(Last(a).nodes, b.primary)
    ensures SucceedsInTime(a, b)
  {
    hide Events, Election.Run, Election.Finished;
    PublishedListIsElectable(a.primary, a.events);
    assert "" != Election.SELF_WIN_IP;
    var c := Election.Config(Last(a).nodes, 1, 0);
    ElectionBounds.RunNothing(c, Election.Init(c, ""));
    var steps, w := ElectionBounds.EveryRunLeadsToOneWinner(c, "", []);
    assert [] + steps == steps;
    var n :| n in c.nodes && n.id == b.primary;
    assert c.nodes[w] in c.nodes && c.nodes[w].id == n.id;
    assert Elected(a, b, 1, 0, "", steps, w);
  }

  /** Every primary that leaves backups behind has a successor, and nothing of its own has happened to it yet. */
  lemma EveryPrimaryIsSucceeded(a: Tenure) returns (b: Tenure)
    requires Lived(a)
    ensures b.events == [] && Succeeds(a, b) && SucceedsInTime(a, b)
  {
    hide Events, Election.Run, Election.Finished;
    PublishedListIsElectable(a.primary, a.events);
    var w := Election.SomeTop(Election.Config(Last(a).nodes, 0, 0), |Last(a).nodes|);
    b := Tenure(Last(a).nodes[w].id, []);
    assert Last(a).nodes[w] in Last(a).nodes;
    SuccessorInTimeIsLargest(a, b);
    SuccessorsAreTheListed(a, b);
  }

  /** Along any chain of failovers the primaries' ids strictly increase. */
  lemma {:induction false} PrimaryIdsIncrease(ts: seq<Tenure>, i: nat, j: nat)
    requires forall k: nat | k + 1 < |ts| :: Succeeds(ts[k], ts[k + 1])
    requires i < j < |ts|
    ensures ts[i].primary < ts[j].primary
    decreases j
  {
    hide Succeeds;
    assert Succeeds(ts[j - 1], ts[j - 1 + 1]);
    SuccessorIsAbove(ts[j - 1], ts[j]);
    if i < j - 1 { PrimaryIdsIncrease(ts, i, j - 1); }
  }

  /** The ids that a primary gave to its backups. */
  function Numbers(a: Tenure): seq<int> {
    HandedOut(Begin(a.primary), a.events)
  }

  /**
   * Distinctness stops at the tenure: a successor hands out again an id of its predecessor if and
   * only if it hands out any id at all and was not itself the last one the predecessor numbered.
   */
  lemma IdsAreReusedExactlyWhen(a: Tenure, b: Tenure)
    requires Succeeds(a, b) && Events(Begin(b.primary), b.events).Some?
    ensures (exists id :: id in Numbers(a) && id in Numbers(b))
      <==> Last(b).nextId > 0 && b.primary < a.primary + Last(a).nextId
  {
    hide HandedOut, Succeeds;
    SuccessorIsAbove(a, b);
    IdsAreNumberedInOrder(a.primary, a.events);
    IdsAreNumberedInOrder(b.primary, b.events);
    if Last(b).nextId > 0 && b.primary < a.primary + Last(a).nextId {
      assert b.primary + 1 in Numbers(a) && b.primary + 1 in Numbers(b);
    }
  }

  /** It happens: of two backups the second leaves, the first succeeds, and it gives a backup the second's number. */
  lemma AnIdIsReused() returns (a: Tenure, b: Tenure)
    ensures SucceedsInTime(a, b) && Succeeds(a, b) && Events(Begin(b.primary), b.events).Some?
    ensures exists id :: id in Numbers(a) && id in Numbers(b)
  {
    hide Succeeds, SucceedsInTime, HandedOut;
    a := Tenure(0, [Connect("10.0.0.1"), Connect("10.0.0.2"), Disconnect("10.0.0.2")]);
    LeavesFirstBackup(a);
    b := Tenure(1, [Connect("10.0.0.3")]);
    assert Node("10.0.0.1", 1) in Last(a).nodes;
    SuccessorInTimeIsLargest(a, b);
    SuccessorsAreTheListed(a, b);
    OneConnect(b.primary, "10.0.0.3");
    IdsAreReusedExactlyWhen(a, b);
  }

  lemma OneConnect(primary: int, ip: string)
    ensures Events(Begin(primary), [Connect(ip)]).Some?
    ensures Events(Begin(primary), [Connect(ip)]).value.core.nextId == 1
  {
    assert [Connect(ip)][1..] == [];
  }

  lemma SecondRemoved(a: Node, b: Node)
    requires a.ip != b.ip
    ensures WithoutIp([a, b], b.ip) == [a]
  {
    assert [a, b][..1] == [a] && [a][..0] == [];
    assert WithoutIp([a], b.ip) == [a];
  }

  lemma LeavesFirstBackup(a: Tenure)
    requires a == Tenure(0, [Connect("10.0.0.1"), Connect("10.0.0.2"), Disconnect("10.0.0.2")])
    ensures Lived(a) && Last(a).nextId == 2 && Last(a).nodes == [Node("10.0.0.1", 1)]
  {
    hide After, WithoutIp;
    var one, two, gone := Connect("10.0.0.1"), Connect("10.0.0.2"), Disconnect("10.0.0.2");
    assert a.events[1..] == [two, gone] && [two, gone][1..] == [gone] && [gone][1..] == [];
    var t1 := After(Begin(0), one);
    OneIsConnected();
    var t2 := After(t1, two);
    TwoAreConnected(t1);
    var t3 := After(t2, gone);
    SecondIsGone(t2);
    assert Events(t2, [gone]) == Events(t3, []) == Some(t3);
    assert Events(t1, [two, gone]) == Some(t3);
  }

  lemma OneIsConnected()
    ensures var r := After(Begin(0), Connect("10.0.0.1")).core;
      && r.serverId == 0 && r.nextId == 1 && r.nodes == [Node("10.0.0.1", 1)] && r.conns.Keys == {"10.0.0.1"}
    ensures After(Begin(0), Connect("10.0.0.1")).live == map["10.0.0.1" := 1]
  {}

  lemma TwoAreConnected(t: Tracked)
    requires t.core.serverId == 0 && t.core.nextId == 1 && t.core.nodes == [Node("10.0.0.1", 1)]
    requires t.core.conns.Keys == {"10.0.0.1"} && t.live == map["10.0.0.1" := 1]
    ensures var u := After(t, Connect("10.0.0.2"));
      && u.core.nextId == 2 && u.core.nodes == [Node("10.0.0.1", 1), Node("10.0.0.2", 2)]
      && u.core.conns.Keys == {"10.0.0.1", "10.0.0.2"} && u.core.conns["10.0.0.2"].connections == 0
      && Live(u, "10.0.0.2") == 1
  {
    assert "10.0.0.1"[7] != "10.0.0.2"[7];
  }

  lemma SecondIsGone(t: Tracked)
    requires t.core.nextId == 2 && t.core.nodes == [Node("10.0.0.1", 1), Node("10.0.0.2", 2)]
    requires t.core.conns.Keys == {"10.0.0.1", "10.0.0.2"} && t.core.conns["10.0.0.2"].connections == 0
    requires Live(t, "10.0.0.2") == 1
    ensures Possible(t, Disconnect("10.0.0.2"))
    ensures var r := After(t, Disconnect("10.0.0.2")).core;
      && r.nextId == 2 && r.nodes == [Node("10.0.0.1", 1)]
      && "10.0.0.1" in r.conns && Election.SELF_WIN_IP !in r.conns
  {
    hide WithoutIp;
    assert "10.0.0.1"[7] != "10.0.0.2"[7] && "10.0.0.1"[0] != Election.SELF_WIN_IP[0];
    SecondRemoved(Node("10.0.0.1", 1), Node("10.0.0.2", 2));
  }

  // ---- taking over ----

  /**
   * initializePrimary(true): both lists are reset and the client addresses held are dialled in order,
   * once per entry.  The first one that does not answer ends the process.
   */
  method RecoverAsPrimary(state: BackupState, answers: string -> bool) returns (dialled: seq<string>, alive: bool)
    modifies state`connectedBackupNodes, state`connectedClientIps
    ensures state.connectedBackupNodes == [] && state.connectedClientIps == []
    ensures alive <==> forall ip | ip in old(state.connectedClientIps) :: answers(ip)
    ensures dialled <= old(state.connectedClientIps) && (alive ==> dialled == old(state.connectedClientIps))
    ensures forall i | 0 <= i < |dialled| :: answers(dialled[i]) <==> alive || i < |dialled| - 1
  {
    var copyClientIps := state.connectedClientIps;
    state.connectedBackupNodes := [];
    state.connectedClientIps := [];
    dialled, alive := [], true;
    for i := 0 to |copyClientIps|
      invariant dialled == copyClientIps[..i] && alive
      invariant forall j | 0 <= j < i :: answers(copyClientIps[j])
    {
      dialled := dialled + [copyClientIps[i]];
      if !answers(copyClientIps[i]) {
        alive := false;
        assert copyClientIps[i] in copyClientIps;
        break;
      }
    }
  }
}
