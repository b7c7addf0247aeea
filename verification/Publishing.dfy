/**
 * The monitor of a backup and the registry together (server/includes/primary/backupConnection): the ids and
 * lists that the loop puts on the wire are those that the registry counts as sent.
 */
module Publishing {
  import opened Bytes
  import opened Payloads
  import opened BackupStream
  import opened Replication
  import opened Registry
  import opened Monitors
  import opened MonitorSteps

  lemma {:induction false} ListsOfConcat(a: seq<ReplicaOp>, b: seq<ReplicaOp>)
    ensures ListOps(a + b) == ListOps(a) + ListOps(b)
    decreases |a|
  {
    hide AboutFiles;
    if a == [] {
      assert a + b == b;
    } else {
      assert (a + b)[1..] == a[1..] + b;
      ListsOfConcat(a[1..], b);
      AppendOps(if AboutFiles(a[0]) then [] else [a[0]], ListOps(a[1..]), ListOps(b));
    }
  }

  lemma ListsOfOne(op: ReplicaOp)
    ensures ListOps([op]) == if AboutFiles(op) then [] else [op]
    ensures ListOps([]) == []
  {
    assert [op][1..] == [];
  }

  /** One turn sends the address list when its flag is up and then the node list when its flag is up. */
  lemma ListsOfTurn(
    store: Store, q: seq<Change>, ipsUp: bool, nodesUp: bool, ips: seq<string>, nodes: seq<Node>)
    ensures ListOps(TurnOps(store, q, ipsUp, nodesUp, ips, nodes))
      == (if ipsUp then [SendIps(ips)] else []) + (if nodesUp then [SendNodes(nodes)] else [])
  {
    hide OpFor, ListOps;
    var file := if q != [] then [OpFor(store, q[0])] else [];
    var first, second := if ipsUp then [SendIps(ips)] else [], if nodesUp then [SendNodes(nodes)] else [];
    ListsOfConcat(file, first + second);
    ListsOfConcat(first, second);
    ListsOfOne(SendIps(ips));
    ListsOfOne(SendNodes(nodes));
    if q != [] { ListsOfOne(OpFor(store, q[0])); OpsAreFiles(store, q[0]); }
    assert [] + (first + second) == first + second;
  }

  // ---- one turn ----

  /** The registry's events of one turn at an address, in the order of the loop's two tests. */
  function Publishes(t: Tracked, ip: string): seq<Event>
    requires ip in t.core.conns
  {
    (if t.core.conns[ip].ipsChanged then [PublishIps(ip)] else [])
    + (if t.core.conns[ip].nodesChanged then [PublishNodes(ip)] else [])
  }

  /** The registry after a turn: the flags of the address are down. */
  function AfterTurn(t: Tracked, ip: string): Tracked
    requires ip in t.core.conns
  {
    var u := if t.core.conns[ip].ipsChanged then After(t, PublishIps(ip)) else t;
    if t.core.conns[ip].nodesChanged then After(u, PublishNodes(ip)) else u
  }

  lemma TurnIsEvents(t: Tracked, ip: string)
    requires ip in t.core.conns
    ensures Events(t, Publishes(t, ip)) == Some(AfterTurn(t, ip))
  {
    var u := AfterTurn(t, ip);
    var first, second := PublishIps(ip), PublishNodes(ip);
    assert [first][1..] == [] && [second][1..] == [] && ([first] + [second])[1..] == [second];
    assert Events(u, []) == Some(u);
    if t.core.conns[ip].ipsChanged {
      assert Possible(t, first);
      var v := After(t, first);
      assert Events(v, []) == Some(v);
      if t.core.conns[ip].nodesChanged {
        assert Possible(v, second) && Events(v, [second]) == Some(u);
      }
    }
  }

  lemma TurnIsPublished(t: Tracked, ip: string, store: Store, q: seq<Change>)
    requires ip in t.core.conns
    ensures var u := AfterTurn(t, ip);
      var conn := t.core.conns[ip];
      && ip in u.core.conns && !u.core.conns[ip].ipsChanged && !u.core.conns[ip].nodesChanged
      && Wire(u, ip) == Wire(t, ip)
        + ListOps(TurnOps(store, q, conn.ipsChanged, conn.nodesChanged, t.core.clientIps, t.core.nodes))
  {
    hide TurnOps, ListOps;
    ListsOfTurn(store, q, t.core.conns[ip].ipsChanged, t.core.conns[ip].nodesChanged, t.core.clientIps, t.core.nodes);
    var first := if t.core.conns[ip].ipsChanged then [SendIps(t.core.clientIps)] else [];
    var second := if t.core.conns[ip].nodesChanged then [SendNodes(t.core.nodes)] else [];
    assert Wire(t, ip) + (first + second) == (Wire(t, ip) + first) + second;
    assert Wire(t, ip) + [] == Wire(t, ip) && (Wire(t, ip) + first) + [] == Wire(t, ip) + first;
  }

  // ---- turn after turn ----

  /** An event that writes nothing on the stream of an address. */
  predicate Silent(e: Event, ip: string) {
    e != Connect(ip) && e != PublishIps(ip) && e != PublishNodes(ip)
  }

  predicate AllSilent(es: seq<Event>, ip: string) {
    forall e | e in es :: Silent(e, ip)
  }

  lemma SilentAfter(t: Tracked, e: Event, ip: string)
    requires Possible(t, e) && Silent(e, ip) && ip in After(t, e).core.conns
    ensures ip in t.core.conns && Wire(After(t, e), ip) == Wire(t, ip)
    ensures t.core.conns[ip].ipsChanged ==> After(t, e).core.conns[ip].ipsChanged
    ensures t.core.conns[ip].nodesChanged ==> After(t, e).core.conns[ip].nodesChanged
  {
    hide WithoutIp, Without;
  }

  lemma {:induction false} StaysGone(t: Tracked, es: seq<Event>, ip: string)
    requires Events(t, es).Some? && AllSilent(es, ip) && ip !in t.core.conns
    ensures ip !in Events(t, es).value.core.conns
    decreases |es|
  {
    if es != [] {
      assert es[0] in es && AllSilent(es[1..], ip);
      if ip in After(t, es[0]).core.conns { SilentAfter(t, es[0], ip); }
      StaysGone(After(t, es[0]), es[1..], ip);
    }
  }

  /** Others raise flags, and neither lower them nor write on this stream. */
  lemma {:induction false} SilentEvents(t: Tracked, es: seq<Event>, ip: string)
    requires Events(t, es).Some? && AllSilent(es, ip) && ip in Events(t, es).value.core.conns
    ensures var u := Events(t, es).value;
      && ip in t.core.conns && Wire(u, ip) == Wire(t, ip)
      && (t.core.conns[ip].ipsChanged ==> u.core.conns[ip].ipsChanged)
      && (t.core.conns[ip].nodesChanged ==> u.core.conns[ip].nodesChanged)
    decreases |es|
  {
    hide After, Possible;
    if es != [] {
      assert es[0] in es && AllSilent(es[1..], ip);
      var v := After(t, es[0]);
      if ip !in v.core.conns { StaysGone(v, es[1..], ip); }
      SilentEvents(v, es[1..], ip);
      SilentAfter(t, es[0], ip);
    }
  }

  /** What happens in between turns: events of others, while the connection of the address stays. */
  predicate InBetween(t: Tracked, ip: string, others: seq<seq<Event>>)
    decreases |others|
  {
    others == [] || (
      && AllSilent(others[0], ip) && Events(t, others[0]).Some?
      && ip in Events(t, others[0]).value.core.conns
      && InBetween(AfterTurn(Events(t, others[0]).value, ip), ip, others[1..]))
  }

  function AfterTurns(t: Tracked, ip: string, others: seq<seq<Event>>): Tracked
    requires InBetween(t, ip, others)
    decreases |others|
  {
    if others == [] then t else AfterTurns(AfterTurn(Events(t, others[0]).value, ip), ip, others[1..])
  }

  /** The turns as the loop sees them: the flags and lists of the registry, whatever is pushed and stored. */
  function TurnsSeen(t: Tracked, ip: string, others: seq<seq<Event>>, moments: seq<Moment<Change>>): seq<BackupTurn>
    requires InBetween(t, ip, others) && |moments| == |others|
    decreases |others|
  {
    if others == [] then [] else
      var u := Events(t, others[0]).value;
      [BackupTurn(moments[0].pushed, moments[0].store, u.core.conns[ip].ipsChanged, u.core.conns[ip].nodesChanged,
         u.core.clientIps, u.core.nodes, true)]
      + TurnsSeen(AfterTurn(u, ip), ip, others[1..], moments[1..])
  }

  /**
   * Whatever connects, leaves and changes in between, and whatever files go out meanwhile, the lists that the
   * loop of BackupMonitor puts on the wire are exactly those that the registry counts as sent to the address.
   */
  lemma {:induction false} LoopSendsWhatIsPublished(
    t: Tracked, ip: string, others: seq<seq<Event>>, moments: seq<Moment<Change>>, q: seq<Change>)
    requires InBetween(t, ip, others) && |moments| == |others| && ip in t.core.conns
    ensures Wire(AfterTurns(t, ip, others), ip) == Wire(t, ip)
      + ListOps(Turns(q, t.core.conns[ip].ipsChanged, t.core.conns[ip].nodesChanged, TurnsSeen(t, ip, others, moments)))
    decreases |others|
  {
    hide TurnOps, ListOps, After, Possible, Events, AfterTurn;
    var f, g := t.core.conns[ip].ipsChanged, t.core.conns[ip].nodesChanged;
    if others == [] {
      ListsOfOne(SendId(0));
      assert Wire(t, ip) + [] == Wire(t, ip);
    } else {
      var u := Events(t, others[0]).value;
      SilentEvents(t, others[0], ip);
      var q' := q + moments[0].pushed;
      var rest := q'[Min(1, |q'|)..];
      TurnIsPublished(u, ip, moments[0].store, q');
      LoopSendsWhatIsPublished(AfterTurn(u, ip), ip, others[1..], moments[1..], rest);
      var conn := u.core.conns[ip];
      var now := TurnOps(moments[0].store, q', conn.ipsChanged, conn.nodesChanged, u.core.clientIps, u.core.nodes);
      var seen := TurnsSeen(AfterTurn(u, ip), ip, others[1..], moments[1..]);
      assert TurnsSeen(t, ip, others, moments)[1..] == seen;
      ListsOfConcat(now, Turns(rest, false, false, seen));
      AppendOps(Wire(t, ip), ListOps(now), ListOps(Turns(rest, false, false, seen)));
    }
  }
}
