/**
 * The loops of the monitors and the engine: what a loop sends, and leaves queued, is what the engine's steps
 * send and leave queued when the rest of the server does the same things in between.
 */
module MonitorSteps {
  import opened Bytes
  import opened Payloads
  import opened BackupStream
  import opened Replication
  import opened ChangeQueues
  import opened Monitors

  // ---- the loops are the steps of the engine ----

  lemma {:induction false} FilesOfConcat(a: seq<ReplicaOp>, b: seq<ReplicaOp>)
    ensures FileOps(a + b) == FileOps(a) + FileOps(b)
    decreases |a|
  {
    hide AboutFiles;
    if a == [] {
      assert a + b == b;
    } else {
      assert (a + b)[1..] == a[1..] + b;
      FilesOfConcat(a[1..], b);
      AppendOps(if AboutFiles(a[0]) then [a[0]] else [], FileOps(a[1..]), FileOps(b));
    }
  }

  function Moments(turns: seq<BackupTurn>): seq<Moment<Change>> {
    seq(|turns|, i requires 0 <= i < |turns| => Moment(turns[i].pushed, turns[i].store))
  }

  lemma FilesOfTurn(
    store: Store, q: seq<Change>, ipsChanged: bool, nodesChanged: bool, ips: seq<string>, nodes: seq<Node>)
    ensures FileOps(TurnOps(store, q, ipsChanged, nodesChanged, ips, nodes))
      == if q != [] then [OpFor(store, q[0])] else []
  {
    hide OpFor, FileOps;
    var file := if q != [] then [OpFor(store, q[0])] else [];
    var first, second := if ipsChanged then [SendIps(ips)] else [], if nodesChanged then [SendNodes(nodes)] else [];
    FilesOfConcat(file, first + second);
    FilesOfConcat(first, second);
    FilesOfNothing();
    FilesOfOne(SendIps(ips));
    FilesOfOne(SendNodes(nodes));
    if q != [] { FilesOfOne(OpFor(store, q[0])); OpsAreFiles(store, q[0]); }
    assert file + [] == file;
  }

  lemma FilesOfOne(op: ReplicaOp)
    ensures FileOps([op]) == if AboutFiles(op) then [op] else []
  {
    assert [op][1..] == [];
  }

  lemma OpsAreFiles(store: Store, c: Change)
    ensures AboutFiles(OpFor(store, c))
  {}

  /** The files among what the loop of BackupMonitor sends, whatever the flags do: one queued change per turn. */
  lemma {:induction false} FilesOfTurns(q: seq<Change>, ipsChanged: bool, nodesChanged: bool, turns: seq<BackupTurn>)
    ensures FileOps(Turns(q, ipsChanged, nodesChanged, turns)) == DrainOps(q, Moments(TurnsTaken(turns)))
    decreases |turns|
  {
    hide OpFor, TurnOps, FileOps;
    FilesOfNothing();
    if turns != [] {
      var t := turns[0];
      var q' := q + t.pushed;
      var rest := q'[Min(1, |q'|)..];
      var now := TurnOps(t.store, q', ipsChanged || t.ipsUp, nodesChanged || t.nodesUp, t.ips, t.nodes);
      FilesOfTurn(t.store, q', ipsChanged || t.ipsUp, nodesChanged || t.nodesUp, t.ips, t.nodes);
      FilesOfConcat(now, if t.alive then Turns(rest, false, false, turns[1..]) else []);
      if t.alive { FilesOfTurns(rest, false, false, turns[1..]); }
      var later := if t.alive then TurnsTaken(turns[1..]) else [];
      assert TurnsTaken(turns) == [t] + later && Moments(TurnsTaken(turns))[1..] == Moments(later);
      assert Moments(TurnsTaken(turns))[0] == Moment(t.pushed, t.store);
    }
  }

  lemma FilesOfNothing()
    ensures FileOps([]) == []
  {}

  /** The moments at which a run pops a subscriber's queue, with what was pushed to it in between. */
  function PopsOf(s: State, steps: seq<Step>, id: Id, pushed: seq<Change>): seq<Moment<Change>>
    decreases |steps|
  {
    if steps == [] || !Enabled(s, steps[0]) then [] else
      match steps[0]
      case Pop(other) =>
        if other == id then [Moment(pushed, s.store)] + PopsOf(Next(s, steps[0]), steps[1..], id, [])
        else PopsOf(Next(s, steps[0]), steps[1..], id, pushed)
      case Mutate(key, now, origin) =>
        var c := ChangeOf(key, now);
        PopsOf(Next(s, steps[0]), steps[1..], id, pushed + if Notified(id, Entry(c, origin)) then [c] else [])
      case _ => PopsOf(Next(s, steps[0]), steps[1..], id, pushed)
  }

  /** What a run sends a subscriber of its initial synchronisation. */
  function SyncsOf(s: State, steps: seq<Step>, id: Id): seq<ReplicaOp>
    decreases |steps|
  {
    if steps == [] || !Enabled(s, steps[0]) then [] else
      (if steps[0] == SyncSend(id) then [OpFor(s.store, Change(s.subs[id].sync[0], FileCreated))] else [])
      + SyncsOf(Next(s, steps[0]), steps[1..], id)
  }

  predicate Stays(steps: seq<Step>, id: Id) {
    forall step | step in steps :: step != Leave(id)
  }

  function PushedBy(step: Step, id: Id): seq<Change> {
    if step.Mutate? && Notified(id, Entry(ChangeOf(step.key, step.now), step.origin))
    then [ChangeOf(step.key, step.now)] else []
  }

  lemma StepOfOther(s: State, step: Step, id: Id)
    requires Enabled(s, step) && id in s.subs && step != Leave(id)
    ensures id in Next(s, step).subs
    ensures step != SyncSend(id) && step != Pop(id) ==>
      && Next(s, step).subs[id].sent == s.subs[id].sent
      && (Idle(s.subs[id]) ==> Idle(Next(s, step).subs[id]))
      && Next(s, step).subs[id].queue == s.subs[id].queue + PushedBy(step, id)
    ensures step == SyncSend(id) ==>
      && Next(s, step).subs[id].sent == s.subs[id].sent + [OpFor(s.store, Change(s.subs[id].sync[0], FileCreated))]
      && Next(s, step).subs[id].queue == s.subs[id].queue && !Idle(s.subs[id])
    ensures step == Pop(id) ==>
      && s.subs[id].queue != []
      && Next(s, step).subs[id].sent == s.subs[id].sent + [OpFor(s.store, s.subs[id].queue[0])]
      && Next(s, step).subs[id].queue == s.subs[id].queue[1..] && Idle(s.subs[id]) && Idle(Next(s, step).subs[id])
  {
    hide OpFor, Notified;
  }

  lemma {:induction false} IdleIsSynced(s: State, steps: seq<Step>, id: Id)
    requires Run(s, steps).Some? && id in s.subs && Idle(s.subs[id]) && Stays(steps, id)
    ensures SyncsOf(s, steps, id) == []
    decreases |steps|
  {
    hide Next, Enabled, OpFor, Idle, Notified;
    if steps != [] {
      assert steps[0] in steps && forall step | step in steps[1..] :: step in steps;
      StepOfOther(s, steps[0], id);
      IdleIsSynced(Next(s, steps[0]), steps[1..], id);
    }
  }

  lemma RunStep(s: State, steps: seq<Step>)
    requires Run(s, steps).Some? && steps != []
    ensures Enabled(s, steps[0]) && Run(Next(s, steps[0]), steps[1..]) == Run(s, steps)
  {
    hide Enabled, Next;
  }

  /** A step that does not pop, and what is sent around it. */
  lemma OtherSends(s: State, steps: seq<Step>, id: Id, q: seq<Change>, pushed: seq<Change>, sent: seq<ReplicaOp>)
    requires steps != [] && Enabled(s, steps[0]) && steps[0] != Pop(id)
    ensures var t := Next(s, steps[0]);
      var now := if steps[0] == SyncSend(id) then [OpFor(s.store, Change(s.subs[id].sync[0], FileCreated))] else [];
      var later := PopsOf(t, steps[1..], id, pushed + PushedBy(steps[0], id));
      sent + (SyncsOf(s, steps, id) + DrainOps(q, PopsOf(s, steps, id, pushed)))
        == (sent + now) + (SyncsOf(t, steps[1..], id) + DrainOps(q, later))
  {
    hide Next, Enabled, OpFor, Notified, DrainOps;
    assert pushed + [] == pushed;
  }

  /** A step that pops takes the next turn. */
  lemma PopSends(s: State, steps: seq<Step>, id: Id, q: seq<Change>, pushed: seq<Change>)
    requires steps != [] && Enabled(s, steps[0]) && steps[0] == Pop(id) && q + pushed != []
    ensures DrainOps(q, PopsOf(s, steps, id, pushed))
      == [OpFor(s.store, (q + pushed)[0])] + DrainOps((q + pushed)[1..], PopsOf(Next(s, steps[0]), steps[1..], id, []))
  {
    hide Next, Enabled, OpFor;
    var turns := PopsOf(s, steps, id, pushed);
    assert turns[0] == Moment(pushed, s.store) && turns[1..] == PopsOf(Next(s, steps[0]), steps[1..], id, []);
  }

  /**
   * What the engine records as sent to a subscriber, under any interleaving, is what the loop of its
   * monitor sends when the rest of the server does the same things in between: the files of the listing,
   * each as it is when its turn comes, and then one queued change per turn.
   */
  lemma {:induction false} StepsAreTurns(s: State, steps: seq<Step>, id: Id, q: seq<Change>, pushed: seq<Change>)
    requires Run(s, steps).Some? && id in s.subs && Stays(steps, id)
    requires s.subs[id].queue == q + pushed
    ensures id in Run(s, steps).value.subs
    ensures Run(s, steps).value.subs[id].sent
      == s.subs[id].sent + (SyncsOf(s, steps, id) + DrainOps(q, PopsOf(s, steps, id, pushed)))
    decreases |steps|
  {
    hide Next, Enabled, OpFor, Notified, Idle, PopsOf, SyncsOf, DrainOps, Run;
    if steps == [] {
      NothingSent(s, id, q, pushed);
    } else {
      assert steps[0] in steps && forall step | step in steps[1..] :: step in steps;
      RunStep(s, steps);
      StepOfOther(s, steps[0], id);
      var t := Next(s, steps[0]);
      if steps[0] == Pop(id) {
        IdleIsSynced(s, steps, id);
        IdleIsSynced(t, steps[1..], id);
        PopSends(s, steps, id, q, pushed);
        assert (q + pushed)[1..] + [] == (q + pushed)[1..];
        StepsAreTurns(t, steps[1..], id, (q + pushed)[1..], []);
      } else {
        OtherSends(s, steps, id, q, pushed, s.subs[id].sent);
        assert (q + pushed) + PushedBy(steps[0], id) == q + (pushed + PushedBy(steps[0], id));
        StepsAreTurns(t, steps[1..], id, q, pushed + PushedBy(steps[0], id));
        assert s.subs[id].sent + [] == s.subs[id].sent;
      }
    }
  }

  lemma NothingSent(s: State, id: Id, q: seq<Change>, pushed: seq<Change>)
    requires id in s.subs
    ensures Run(s, []) == Some(s)
    ensures s.subs[id].sent == s.subs[id].sent + (SyncsOf(s, [], id) + DrainOps(q, PopsOf(s, [], id, pushed)))
  {}

  lemma {:induction false} FilesOnly(ops: seq<ReplicaOp>)
    requires forall op | op in ops :: AboutFiles(op)
    ensures FileOps(ops) == ops
    decreases |ops|
  {
    if ops != [] {
      assert ops[0] in ops && forall op | op in ops[1..] :: op in ops;
      FilesOnly(ops[1..]);
    }
  }

  /**
   * The loop of BackupMonitor and the engine together.  Let the engine take any steps while a backup stays
   * connected, and let the loop meet the same listing and, at each turn that finds something to pop, the
   * same changes and the same store; idle turns, raised flags, lists sent and a dead socket come anywhere.
   * The files it puts on the wire are exactly what the engine records as sent.
   */
  lemma MonitorSendsWhatTheEngineRecords(s: State, steps: seq<Step>, id: Id,
    stores: seq<Store>, listing: seq<Key>, ipsChanged: bool, nodesChanged: bool, turns: seq<BackupTurn>)
    requires Run(s, steps).Some? && id in s.subs && Stays(steps, id)
    requires |stores| == |listing| && OpsAt(stores, CreatedKeys(listing)) == SyncsOf(s, steps, id)
    requires Popping(s.subs[id].queue, Moments(TurnsTaken(turns))) == PopsOf(s, steps, id, [])
    ensures id in Run(s, steps).value.subs
    ensures Run(s, steps).value.subs[id].sent == s.subs[id].sent
      + FileOps(OpsAt(stores, CreatedKeys(listing)) + Turns(s.subs[id].queue, ipsChanged, nodesChanged, turns))
  {
    hide Run, FileOps, Turns, DrainOps, SyncsOf, PopsOf, Moments, TurnsTaken, Popping;
    var q := s.subs[id].queue;
    assert q + [] == q;
    StepsAreTurns(s, steps, id, q, []);
    IdleTurnsSendNothing(q, Moments(TurnsTaken(turns)));
    FilesOfTurns(q, ipsChanged, nodesChanged, turns);
    FilesOfConcat(OpsAt(stores, CreatedKeys(listing)), Turns(q, ipsChanged, nodesChanged, turns));
    FilesOnly(OpsAt(stores, CreatedKeys(listing)));
  }

  /** The same for a device: what LocalMonitor's loop sends, its queue read as the engine reads it. */
  lemma LocalMonitorSendsWhatTheEngineRecords(s: State, steps: seq<Step>, user: string, ip: string,
    stores: seq<Store>, listing: seq<string>, q: seq<FileChange>, turns: seq<Moment<FileChange>>)
    requires Run(s, steps).Some? && Device(user, ip) in s.subs && Stays(steps, Device(user, ip))
    requires KeyedChanges(user, q) == s.subs[Device(user, ip)].queue
    requires |stores| == |listing| && OpsAt(stores, Created(user, listing)) == SyncsOf(s, steps, Device(user, ip))
    requires Popping(KeyedChanges(user, q), KeyedTurns(user, turns)) == PopsOf(s, steps, Device(user, ip), [])
    ensures Device(user, ip) in Run(s, steps).value.subs
    ensures Run(s, steps).value.subs[Device(user, ip)].sent == s.subs[Device(user, ip)].sent
      + (OpsAt(stores, Created(user, listing)) + DrainOps(KeyedChanges(user, q), KeyedTurns(user, turns)))
  {
    hide Run, DrainOps, SyncsOf, PopsOf, Popping, KeyedChanges, KeyedTurns, OpsAt;
    var keyed := KeyedChanges(user, q);
    assert keyed + [] == keyed;
    StepsAreTurns(s, steps, Device(user, ip), keyed, []);
    IdleTurnsSendNothing(keyed, KeyedTurns(user, turns));
  }

  // ---- every run of the engine is met by some loop ----

  function SyncKeys(s: State, steps: seq<Step>, id: Id): seq<Key>
    decreases |steps|
  {
    if steps == [] || !Enabled(s, steps[0]) then [] else
      (if steps[0] == SyncSend(id) then [s.subs[id].sync[0]] else []) + SyncKeys(Next(s, steps[0]), steps[1..], id)
  }

  function SyncStores(s: State, steps: seq<Step>, id: Id): (stores: seq<Store>)
    ensures |stores| == |SyncKeys(s, steps, id)|
    decreases |steps|
  {
    if steps == [] || !Enabled(s, steps[0]) then [] else
      (if steps[0] == SyncSend(id) then [s.store] else []) + SyncStores(Next(s, steps[0]), steps[1..], id)
  }

  lemma OpsAtCons(store: Store, stores: seq<Store>, key: Key, keys: seq<Key>)
    requires |stores| == |keys|
    ensures OpsAt([store] + stores, CreatedKeys([key] + keys))
      == [OpFor(store, Change(key, FileCreated))] + OpsAt(stores, CreatedKeys(keys))
  {
    hide OpFor;
  }

  lemma {:induction false} SyncsAreAListing(s: State, steps: seq<Step>, id: Id)
    ensures OpsAt(SyncStores(s, steps, id), CreatedKeys(SyncKeys(s, steps, id))) == SyncsOf(s, steps, id)
    decreases |steps|
  {
    hide OpFor, Next, OpsAt, CreatedKeys;
    if steps == [] || !Enabled(s, steps[0]) {
      NoListing();
    } else {
      var t := Next(s, steps[0]);
      SyncsAreAListing(t, steps[1..], id);
      if steps[0] == SyncSend(id) {
        OpsAtCons(s.store, SyncStores(t, steps[1..], id), s.subs[id].sync[0], SyncKeys(t, steps[1..], id));
      } else {
        assert [] + SyncStores(t, steps[1..], id) == SyncStores(t, steps[1..], id);
        assert [] + SyncKeys(t, steps[1..], id) == SyncKeys(t, steps[1..], id);
        assert [] + SyncsOf(t, steps[1..], id) == SyncsOf(t, steps[1..], id);
      }
    }
  }

  lemma NoListing()
    ensures OpsAt([], CreatedKeys([])) == []
  {}

  lemma MomentsCons(t: BackupTurn, turns: seq<BackupTurn>)
    ensures Moments([t] + turns) == [Moment(t.pushed, t.store)] + Moments(turns)
  {}

  /** Turns of a loop that stays alive, with nothing to say about lists. */
  function QuietTurns(pops: seq<Moment<Change>>): seq<BackupTurn> {
    seq(|pops|, i requires 0 <= i < |pops| => BackupTurn(pops[i].pushed, pops[i].store, false, false, [], [], true))
  }

  lemma {:induction false} QuietTurnsAreTaken(pops: seq<Moment<Change>>)
    ensures Moments(TurnsTaken(QuietTurns(pops))) == pops
    decreases |pops|
  {
    if pops != [] {
      var turns := QuietTurns(pops);
      assert turns[1..] == QuietTurns(pops[1..]) && turns[0].alive;
      QuietTurnsAreTaken(pops[1..]);
      var later := TurnsTaken(turns[1..]);
      assert TurnsTaken(turns) == [turns[0]] + later;
      MomentsCons(turns[0], later);
    }
  }

  /** No turn of the engine is idle: it pops only what is there. */
  lemma {:induction false} PopsArePopping(s: State, steps: seq<Step>, id: Id, q: seq<Change>, pushed: seq<Change>)
    requires Run(s, steps).Some? && id in s.subs && Stays(steps, id) && s.subs[id].queue == q + pushed
    ensures Popping(q, PopsOf(s, steps, id, pushed)) == PopsOf(s, steps, id, pushed)
    decreases |steps|
  {
    hide Next, Enabled, OpFor, Notified, Idle, Run;
    if steps != [] {
      assert steps[0] in steps && forall step | step in steps[1..] :: step in steps;
      RunStep(s, steps);
      StepOfOther(s, steps[0], id);
      var t := Next(s, steps[0]);
      if steps[0] == Pop(id) {
        PopsArePopping(t, steps[1..], id, (q + pushed)[1..], []);
        var pops := PopsOf(s, steps, id, pushed);
        assert pops[0] == Moment(pushed, s.store) && pops[1..] == PopsOf(t, steps[1..], id, []);
        assert (q + pushed)[1..] + [] == (q + pushed)[1..];
      } else {
        assert (q + pushed) + PushedBy(steps[0], id) == q + (pushed + PushedBy(steps[0], id));
        assert pushed + [] == pushed;
        PopsArePopping(t, steps[1..], id, q, pushed + PushedBy(steps[0], id));
      }
    }
  }

  /** For every run of the engine there is a listing, and there are turns, that meet it. */
  lemma EveryRunIsMet(s: State, steps: seq<Step>, id: Id)
    returns (stores: seq<Store>, listing: seq<Key>, turns: seq<BackupTurn>)
    requires Run(s, steps).Some? && id in s.subs && Stays(steps, id)
    ensures |stores| == |listing| && OpsAt(stores, CreatedKeys(listing)) == SyncsOf(s, steps, id)
    ensures Popping(s.subs[id].queue, Moments(TurnsTaken(turns))) == PopsOf(s, steps, id, []) && StaysAlive(turns)
  {
    hide Run, PopsOf, Popping, Moments, TurnsTaken;
    stores, listing := SyncStores(s, steps, id), SyncKeys(s, steps, id);
    SyncsAreAListing(s, steps, id);
    turns := QuietTurns(PopsOf(s, steps, id, []));
    QuietTurnsAreTaken(PopsOf(s, steps, id, []));
    assert s.subs[id].queue + [] == s.subs[id].queue;
    PopsArePopping(s, steps, id, s.subs[id].queue, []);
  }

  // ---- what the two kinds of synchronisation send ----

  /** A device is sent every listed file of its user as it is at that moment, or nothing of it, and never a delete. */
  lemma DeviceIsSentItsFiles(user: string, listing: seq<string>, stores: seq<Store>)
    requires |stores| == |listing|
    ensures var ops := OpsAt(stores, Created(user, listing));
      && |ops| == |listing|
      && forall i | 0 <= i < |listing| :: ops[i] ==
           if Key(user, listing[i]) in stores[i] then Put(Key(user, listing[i]), stores[i][Key(user, listing[i])])
           else Vanished(user)
  {}

  /** A backup is sent every listed file of every user, likewise. */
  lemma BackupIsSentAllFiles(listing: seq<Key>, stores: seq<Store>)
    requires |stores| == |listing|
    ensures var ops := OpsAt(stores, CreatedKeys(listing));
      && |ops| == |listing|
      && forall i | 0 <= i < |listing| :: ops[i] ==
           if listing[i] in stores[i] then Put(listing[i], stores[i][listing[i]]) else Vanished(listing[i].user)
  {}

  /** And what a queued change of a device makes of its name: the file of that name of that user, created or deleted. */
  lemma QueuedChangesAreKeyed(user: string, q: seq<FileChange>)
    ensures |KeyedChanges(user, q)| == |q|
    ensures forall i | 0 <= i < |q| ::
      KeyedChanges(user, q)[i].key == Key(user, q[i].filename) && KeyedChanges(user, q)[i].kind == q[i].changeType
  {}

  // ---- nothing is dropped ----

  function AllPushed<T>(turns: seq<Moment<T>>): seq<T>
    decreases |turns|
  {
    if turns == [] then [] else turns[0].pushed + AllPushed(turns[1..])
  }

  /** How many turns find something to pop in a queue of this length. */
  function Pops<T>(length: nat, turns: seq<Moment<T>>): (n: nat)
    ensures n <= |turns| && n <= length + |AllPushed(turns)|
    decreases |turns|
  {
    if turns == [] then 0
    else if length + |turns[0].pushed| == 0 then Pops(0, turns[1..])
    else 1 + Pops(length + |turns[0].pushed| - 1, turns[1..])
  }

  /** First in, first out: what stays queued is what came last, and as much as was not popped. */
  lemma {:induction false} RestIsWhatCameLast<T>(q: seq<T>, turns: seq<Moment<T>>)
    ensures DrainRest(q, turns) == (q + AllPushed(turns))[Pops(|q|, turns)..]
    decreases |turns|
  {
    if turns != [] {
      var q' := q + turns[0].pushed;
      RestIsWhatCameLast(q'[Min(1, |q'|)..], turns[1..]);
      assert q + AllPushed(turns) == q' + AllPushed(turns[1..]);
      if q' != [] {
        assert (q' + AllPushed(turns[1..]))[1..] == q'[1..] + AllPushed(turns[1..]);
      } else {
        assert q' + AllPushed(turns[1..]) == AllPushed(turns[1..]);
      }
    }
  }

  /** And what is sent are the changes that came first, in order, each against the store of a turn. */
  lemma {:induction false} SentIsWhatCameFirst(q: seq<Change>, turns: seq<Moment<Change>>)
    ensures |DrainOps(q, turns)| == Pops(|q|, turns) == |Popping(q, turns)|
    ensures forall i | 0 <= i < |DrainOps(q, turns)| ::
      DrainOps(q, turns)[i] == OpFor(Popping(q, turns)[i].store, (q + AllPushed(turns))[i])
    decreases |turns|
  {
    hide OpFor, DrainOps, Popping, AllPushed;
    TurnByTurn(q, turns);
    if turns != [] {
      var q' := q + turns[0].pushed;
      var rest := q'[Min(1, |q'|)..];
      SentIsWhatCameFirst(rest, turns[1..]);
      if q' != [] {
        forall i | 0 < i < |DrainOps(q, turns)|
          ensures DrainOps(q, turns)[i] == OpFor(Popping(q, turns)[i].store, (q + AllPushed(turns))[i])
        {
          assert DrainOps(q, turns)[i] == DrainOps(rest, turns[1..])[i - 1];
          assert Popping(q, turns)[i] == Popping(rest, turns[1..])[i - 1];
          assert (q + AllPushed(turns))[i] == (rest + AllPushed(turns[1..]))[i - 1];
        }
      }
    }
  }

  /** What one turn adds to what is sent, to the turns that pop and to all that was queued. */
  lemma TurnByTurn(q: seq<Change>, turns: seq<Moment<Change>>)
    ensures turns == [] ==> DrainOps(q, turns) == [] && Popping(q, turns) == []
    ensures turns != [] ==>
      var q' := q + turns[0].pushed;
      var rest := q'[Min(1, |q'|)..];
      if q' == [] then
        && DrainOps(q, turns) == DrainOps(rest, turns[1..]) && Popping(q, turns) == Popping(rest, turns[1..])
        && q + AllPushed(turns) == rest + AllPushed(turns[1..])
      else
        && DrainOps(q, turns) == [OpFor(turns[0].store, q'[0])] + DrainOps(rest, turns[1..])
        && Popping(q, turns) == [turns[0]] + Popping(rest, turns[1..])
        && q + AllPushed(turns) == [q'[0]] + (rest + AllPushed(turns[1..]))
  {
    hide OpFor;
    if turns != [] {
      var q' := q + turns[0].pushed;
      assert q + AllPushed(turns) == q' + AllPushed(turns[1..]);
      if q' != [] { assert q' == [q'[0]] + q'[1..]; }
    }
  }

  /** The queue of a backup, likewise, over the turns that its loop takes. */
  lemma {:induction false} BackupRestIsWhatCameLast(q: seq<Change>, turns: seq<BackupTurn>)
    ensures TurnsRest(q, turns) == DrainRest(q, Moments(TurnsTaken(turns)))
    decreases |turns|
  {
    if turns != [] {
      var q' := q + turns[0].pushed;
      var later := if turns[0].alive then TurnsTaken(turns[1..]) else [];
      assert TurnsTaken(turns) == [turns[0]] + later;
      MomentsCons(turns[0], later);
      if turns[0].alive {
        BackupRestIsWhatCameLast(q'[Min(1, |q'|)..], turns[1..]);
      } else {
        assert Moments(later) == [];
      }
    }
  }

  // ---- every run of the engine is met by some loop of a device ----

  predicate OfUser(user: string, q: seq<Change>) {
    forall c | c in q :: c.key.user == user
  }

  lemma UnkeyedAndKeyed(user: string, q: seq<Change>)
    requires OfUser(user, q)
    ensures KeyedChanges(user, FileChanges(q)) == q
  {
    forall i | 0 <= i < |q|
      ensures KeyedChanges(user, FileChanges(q))[i] == q[i]
    {
      assert q[i] in q;
    }
  }

  function DeviceTurns(pops: seq<Moment<Change>>): seq<Moment<FileChange>> {
    seq(|pops|, i requires 0 <= i < |pops| => Moment(FileChanges(pops[i].pushed), pops[i].store))
  }

  lemma DeviceTurnsAreKeyed(user: string, pops: seq<Moment<Change>>)
    requires forall i | 0 <= i < |pops| :: OfUser(user, pops[i].pushed)
    ensures KeyedTurns(user, DeviceTurns(pops)) == pops
  {
    hide KeyedChanges, FileChanges, OfUser;
    forall i | 0 <= i < |pops|
      ensures KeyedTurns(user, DeviceTurns(pops))[i] == pops[i]
    {
      UnkeyedAndKeyed(user, pops[i].pushed);
    }
  }

  lemma {:induction false} PopsAreOfUser(s: State, steps: seq<Step>, user: string, ip: string, pushed: seq<Change>)
    requires OfUser(user, pushed)
    ensures forall i | 0 <= i < |PopsOf(s, steps, Device(user, ip), pushed)| ::
      OfUser(user, PopsOf(s, steps, Device(user, ip), pushed)[i].pushed)
    decreases |steps|
  {
    hide Next, Enabled;
    if steps != [] && Enabled(s, steps[0]) {
      var t := Next(s, steps[0]);
      match steps[0] {
        case Pop(other) => PopsAreOfUser(t, steps[1..], user, ip, if other == Device(user, ip) then [] else pushed);
        case Mutate(key, now, origin) =>
          var c := ChangeOf(key, now);
          PopsAreOfUser(t, steps[1..], user, ip,
            pushed + if Notified(Device(user, ip), Entry(c, origin)) then [c] else []);
        case _ => PopsAreOfUser(t, steps[1..], user, ip, pushed);
      }
    }
  }

  function Names(keys: seq<Key>): seq<string> {
    seq(|keys|, i requires 0 <= i < |keys| => keys[i].name)
  }

  lemma {:induction false} SyncsAreOfUser(s: State, steps: seq<Step>, user: string, ip: string)
    requires Inv(s)
    ensures forall k | k in SyncKeys(s, steps, Device(user, ip)) :: k.user == user
    decreases |steps|
  {
    hide Next, Inv, SubInv, Scoped;
    if steps != [] && Enabled(s, steps[0]) {
      InvStep(s, steps[0]);
      SyncsAreOfUser(Next(s, steps[0]), steps[1..], user, ip);
      if steps[0] == SyncSend(Device(user, ip)) {
        ScopedAt(s, Device(user, ip));
        assert s.subs[Device(user, ip)].sync[0] in s.subs[Device(user, ip)].sync;
      }
    }
  }

  lemma ScopedAt(s: State, id: Id)
    requires Inv(s) && id in s.subs
    ensures forall k | k in s.subs[id].sync :: InScope(id, k)
    ensures forall c | c in s.subs[id].queue :: InScope(id, c.key)
  {
    assert SubInv(id, s.subs[id], s);
  }

  lemma CreatedAreKeys(user: string, keys: seq<Key>)
    requires forall k | k in keys :: k.user == user
    ensures Created(user, Names(keys)) == CreatedKeys(keys)
  {
    forall i | 0 <= i < |keys|
      ensures Created(user, Names(keys))[i] == CreatedKeys(keys)[i]
    {
      assert keys[i] in keys;
    }
  }

  /**
   * For every run of the engine and every device that stays connected there are a listing, a queue of names
   * and turns of its monitor's loop that meet the run.
   */
  lemma EveryDeviceRunIsMet(s: State, steps: seq<Step>, user: string, ip: string)
    returns (stores: seq<Store>, listing: seq<string>, q: seq<FileChange>, turns: seq<Moment<FileChange>>)
    requires Inv(s) && Run(s, steps).Some? && Device(user, ip) in s.subs && Stays(steps, Device(user, ip))
    ensures KeyedChanges(user, q) == s.subs[Device(user, ip)].queue
    ensures |stores| == |listing| && OpsAt(stores, Created(user, listing)) == SyncsOf(s, steps, Device(user, ip))
    ensures Popping(KeyedChanges(user, q), KeyedTurns(user, turns)) == PopsOf(s, steps, Device(user, ip), [])
  {
    hide Run, PopsOf, Popping, KeyedChanges, KeyedTurns, OpsAt, SyncsOf, SyncKeys, SyncStores, Inv;
    var id := Device(user, ip);
    ScopedAt(s, id);
    q := FileChanges(s.subs[id].queue);
    UnkeyedAndKeyed(user, s.subs[id].queue);
    stores, listing := SyncStores(s, steps, id), Names(SyncKeys(s, steps, id));
    SyncsAreOfUser(s, steps, user, ip);
    CreatedAreKeys(user, SyncKeys(s, steps, id));
    SyncsAreAListing(s, steps, id);
    turns := DeviceTurns(PopsOf(s, steps, id, []));
    PopsAreOfUser(s, steps, user, ip, []);
    DeviceTurnsAreKeyed(user, PopsOf(s, steps, id, []));
    assert s.subs[id].queue + [] == s.subs[id].queue;
    PopsArePopping(s, steps, id, s.subs[id].queue, []);
  }
}
