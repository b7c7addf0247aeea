/** What every run of the replication engine guarantees. */
module Convergence {
  import opened Bytes
  import opened Payloads
  import opened BackupStream
  import opened Replication

  lemma InvStart(store: Store)
    ensures Inv(Start(store))
  {
    assert forall user :: Devices(Start(store), user) == {};
  }

  /**
   * In every reachable state, for every subscriber and every key of its business: sending what
   * is left of its initial synchronisation and of its queue makes the key what the store holds
   * if and only if the key is not recorded as lost.
   */
  lemma RunIsExact(store: Store, steps: seq<Step>, id: Id, k: Key)
    requires Run(Start(store), steps).Some?
    requires id in Run(Start(store), steps).value.subs && InScope(id, k)
    ensures var s := Run(Start(store), steps).value;
      Get(Drained(id, s.subs[id], s.store), k) == Get(s.store, k) <==> k !in s.subs[id].lost
  {
    InvStart(store);
    InvRun(Start(store), steps);
    var s := Run(Start(store), steps).value;
    assert SubInv(id, s.subs[id], s);
  }

  lemma {:induction false} DrainScoped(id: Id, q: seq<Change>, store: Store, replica: Store)
    requires forall c | c in q :: InScope(id, c.key)
    requires forall k | k in replica :: InScope(id, k)
    ensures forall k | k in DrainQueue(q, store, replica) :: InScope(id, k)
  {
    if q != [] {
      var front, last := q[..|q| - 1], q[|q| - 1];
      assert last in q;
      DrainScoped(id, front, store, replica);
      assert forall k | k in DrainQueue(q, store, replica) :: k in DrainQueue(front, store, replica) || k == last.key;
    }
  }

  /** Nothing lost is the same as draining to exactly the subscriber's part of the store. */
  lemma DrainedIsView(s: State, id: Id)
    requires Inv(s) && id in s.subs
    ensures Drained(id, s.subs[id], s.store) == View(id, s.store) <==> s.subs[id].lost == {}
  {
    var sub := s.subs[id];
    assert SubInv(id, sub, s);
    var drained, view := Drained(id, sub, s.store), View(id, s.store);
    DrainScoped(id, sub.queue, s.store, Synced(id, sub, s.store));
    if sub.lost == {} {
      forall k
        ensures Get(drained, k) == Get(view, k)
      {
        if InScope(id, k) {
          assert k !in sub.lost;
        }
      }
      SameStore(drained, view);
    } else {
      var k :| k in sub.lost;
      assert InScope(id, k) && Get(view, k) == Get(s.store, k);
    }
  }

  lemma NothingLeft(id: Id, sub: Subscriber, store: Store)
    requires Idle(sub) && sub.queue == []
    ensures Drained(id, sub, store) == sub.replica
  {
    SyncedIdle(id, sub, store);
  }

  /** With nothing left to send a subscriber equals the server exactly when nothing is lost. */
  lemma IdleIsExact(s: State, id: Id)
    requires Inv(s) && id in s.subs && Idle(s.subs[id]) && s.subs[id].queue == []
    ensures s.subs[id].replica == View(id, s.store) <==> s.subs[id].lost == {}
  {
    NothingLeft(id, s.subs[id], s.store);
    DrainedIsView(s, id);
  }

  // ---- what goes wrong, and when ----

  /** The steps that settle whether a key comes right on a subscriber: its joining, and a change of the key. */
  predicate Decides(step: Step, id: Id, k: Key) {
    match step
    case Join(joining, _) => joining == id
    case Mutate(key, _, _) => key == k
    case _ => false
  }

  /**
   * The three ways to go wrong: a subscriber comes back with a file that is no longer in the store;
   * a device uploads a file whose newest change queued for it is a delete; a command that nothing
   * left to send carries along passes a backup by.
   */
  predicate Spoils(s: State, id: Id, step: Step, k: Key) {
    match step
    case Join(joining, left) => joining == id && k in left && k !in s.store
    case Mutate(key, now, origin) =>
      && key == k && id in s.subs
      && match id {
        case Device(user, ip) => origin == Data(user, ip) && Overtaken(s.subs[id], key, now)
        case Backup(_) => origin.Command? && Missed(s.subs[id], key, now)
      }
    case _ => false
  }

  lemma LostAfterStep(s: State, step: Step, id: Id, k: Key)
    requires Enabled(s, step) && id in Next(s, step).subs && InScope(id, k)
    ensures Decides(step, id, k) ==> (k in Next(s, step).subs[id].lost <==> Spoils(s, id, step, k))
    ensures !Decides(step, id, k) ==> id in s.subs && (k in Next(s, step).subs[id].lost <==> k in s.subs[id].lost)
  {
    hide Overtaken, Missed;
  }

  /** One step, exactly: a deciding step makes the key right unless it spoils it, no other step makes a difference. */
  lemma RightAfterStep(s: State, step: Step, id: Id, k: Key)
    requires Inv(s) && Enabled(s, step) && id in Next(s, step).subs && InScope(id, k)
    ensures var t := Next(s, step);
      var right := Get(Drained(id, t.subs[id], t.store), k) == Get(t.store, k);
      if Decides(step, id, k) then right <==> !Spoils(s, id, step, k)
      else id in s.subs && (right <==> Get(Drained(id, s.subs[id], s.store), k) == Get(s.store, k))
  {
    hide Drained, Next, Enabled, Spoils, Decides, Get;
    InvStep(s, step);
    LostAfterStep(s, step, id, k);
    assert SubInv(id, Next(s, step).subs[id], Next(s, step));
    if !Decides(step, id, k) { assert SubInv(id, s.subs[id], s); }
  }

  /** The verdict of the last deciding step of a run. */
  predicate LastVerdict(s: State, steps: seq<Step>, id: Id, k: Key, before: bool)
    decreases |steps|
  {
    if steps == [] || !Enabled(s, steps[0]) then before else
      LastVerdict(Next(s, steps[0]), steps[1..], id, k,
        if Decides(steps[0], id, k) then !Spoils(s, id, steps[0], k) else before)
  }

  lemma {:induction false} VerdictIsLost(s: State, steps: seq<Step>, id: Id, k: Key, before: bool)
    requires Run(s, steps).Some? && id in Run(s, steps).value.subs && InScope(id, k)
    requires id in s.subs ==> (before <==> k !in s.subs[id].lost)
    ensures LastVerdict(s, steps, id, k, before) <==> k !in Run(s, steps).value.subs[id].lost
    decreases |steps|
  {
    hide Spoils, Decides, Next, Enabled;
    if steps != [] {
      var t := Next(s, steps[0]);
      if id in t.subs { LostAfterStep(s, steps[0], id, k); }
      VerdictIsLost(t, steps[1..], id, k, if Decides(steps[0], id, k) then !Spoils(s, id, steps[0], k) else before);
    }
  }

  /**
   * The exact condition, on the run alone: whatever the interleaving, sending all that is left makes
   * a key right on a subscriber if and only if the last step of the run that joined the subscriber or
   * changed the key did not spoil it.
   */
  lemma ComesRightExactlyWhen(store: Store, steps: seq<Step>, id: Id, k: Key)
    requires Run(Start(store), steps).Some?
    requires id in Run(Start(store), steps).value.subs && InScope(id, k)
    ensures var s := Run(Start(store), steps).value;
      (Get(Drained(id, s.subs[id], s.store), k) == Get(s.store, k))
        <==> LastVerdict(Start(store), steps, id, k, true)
  {
    hide LastVerdict, Drained;
    VerdictIsLost(Start(store), steps, id, k, true);
    RunIsExact(store, steps, id, k);
  }

  /** No step of the run spoils anything for this subscriber. */
  ghost predicate Unspoilt(s: State, steps: seq<Step>, id: Id)
    decreases |steps|
  {
    steps == [] || (Enabled(s, steps[0]) ==>
      && (forall k :: !Spoils(s, id, steps[0], k))
      && Unspoilt(Next(s, steps[0]), steps[1..], id))
  }

  ghost predicate Lossless(s: State, id: Id) {
    id in s.subs ==> s.subs[id].lost == {}
  }

  lemma LosslessStep(s: State, step: Step, id: Id)
    requires Inv(s) && Enabled(s, step) && Lossless(s, id) && forall k :: !Spoils(s, id, step, k)
    ensures Lossless(Next(s, step), id)
  {
    hide Spoils, Decides;
    var t := Next(s, step);
    InvStep(s, step);
    if id in t.subs {
      assert SubInv(id, t.subs[id], t);
      forall k | k in t.subs[id].lost
        ensures false
      {
        LostAfterStep(s, step, id, k);
      }
    }
  }

  lemma {:induction false} LosslessRun(s: State, steps: seq<Step>, id: Id)
    requires Inv(s) && Run(s, steps).Some? && Unspoilt(s, steps, id) && Lossless(s, id)
    ensures Inv(Run(s, steps).value) && Lossless(Run(s, steps).value, id)
    decreases |steps|
  {
    hide Next, Enabled, Inv, Lossless, Spoils;
    if steps != [] {
      LosslessStep(s, steps[0], id);
      InvStep(s, steps[0]);
      LosslessRun(Next(s, steps[0]), steps[1..], id);
    }
  }

  lemma Converges(store: Store, steps: seq<Step>, id: Id)
    requires Run(Start(store), steps).Some? && Unspoilt(Start(store), steps, id)
    requires id in Run(Start(store), steps).value.subs
    ensures var s := Run(Start(store), steps).value;
      && Inv(s) && s.subs[id].lost == {}
      && Drained(id, s.subs[id], s.store) == View(id, s.store)
      && (Idle(s.subs[id]) && s.subs[id].queue == [] ==> s.subs[id].replica == View(id, s.store))
  {
    hide Inv, Drained, Run;
    InvStart(store);
    LosslessRun(Start(store), steps, id);
    var s := Run(Start(store), steps).value;
    DrainedIsView(s, id);
    if Idle(s.subs[id]) && s.subs[id].queue == [] { NothingLeft(id, s.subs[id], s.store); }
  }

  // ---- devices ----

  /**
   * What a device must avoid, and nobody else: joining with a file that the server no longer has,
   * and uploading a file whose newest change queued for it is a delete.
   */
  ghost predicate Guarded(s: State, steps: seq<Step>, user: string, ip: string)
    decreases |steps|
  {
    steps == [] || (Enabled(s, steps[0]) ==>
      && match steps[0] {
        case Join(joining, left) => joining == Device(user, ip) ==> left.Keys <= s.store.Keys
        case Mutate(key, now, origin) =>
          origin == Data(user, ip) ==> !Overtaken(s.subs[Device(user, ip)], key, now)
        case _ => true
      }
      && Guarded(Next(s, steps[0]), steps[1..], user, ip))
  }

  lemma {:induction false} GuardedIsUnspoilt(s: State, steps: seq<Step>, user: string, ip: string)
    requires Run(s, steps).Some?
    ensures Guarded(s, steps, user, ip) <==> Unspoilt(s, steps, Device(user, ip))
    decreases |steps|
  {
    hide Overtaken, Missed;
    if steps != [] {
      GuardedIsUnspoilt(Next(s, steps[0]), steps[1..], user, ip);
      match steps[0] {
        case Join(joining, left) =>
          if joining == Device(user, ip) && !(left.Keys <= s.store.Keys) {
            var k :| k in left && k !in s.store;
            assert Spoils(s, Device(user, ip), steps[0], k);
          }
        case Mutate(key, now, origin) =>
          if origin == Data(user, ip) && Overtaken(s.subs[Device(user, ip)], key, now) {
            assert Spoils(s, Device(user, ip), steps[0], key);
          }
        case _ =>
      }
    }
  }

  /**
   * Device convergence: whatever the other devices of this and other users do on both channels, and
   * however joins, leaves, listings, sends and pops interleave, a guarded device always drains to the
   * user's files, and holds them when it is idle with nothing queued.
   */
  lemma DevicesConverge(store: Store, steps: seq<Step>, user: string, ip: string)
    requires Run(Start(store), steps).Some? && Guarded(Start(store), steps, user, ip)
    requires Device(user, ip) in Run(Start(store), steps).value.subs
    ensures var s := Run(Start(store), steps).value;
      var id := Device(user, ip);
      && Drained(id, s.subs[id], s.store) == View(id, s.store)
      && (Idle(s.subs[id]) && s.subs[id].queue == [] ==> s.subs[id].replica == View(id, s.store))
  {
    GuardedIsUnspoilt(Start(store), steps, user, ip);
    Converges(store, steps, Device(user, ip));
  }

  /** The guard is exact: a device's own upload or delete comes out right if and only if it is not overtaken. */
  lemma OwnChangeIsExact(s: State, step: Step)
    requires Inv(s) && Enabled(s, step) && step.Mutate? && step.origin.Data?
    ensures var own := Device(step.origin.user, step.origin.ip);
      var t := Next(s, step);
      (Get(Drained(own, t.subs[own], t.store), step.key) == Get(t.store, step.key))
        <==> !Overtaken(s.subs[own], step.key, step.now)
  {
    hide Overtaken, Drained;
    RightAfterStep(s, step, Device(step.origin.user, step.origin.ip), step.key);
  }

  lemma RunThree(s: State, a: Step, b: Step, c: Step)
    requires Enabled(s, a) && Enabled(Next(s, a), b) && Enabled(Next(Next(s, a), b), c)
    ensures Run(s, [a, b, c]) == Some(Next(Next(Next(s, a), b), c))
  {
    assert [a, b, c][1..] == [b, c] && [b, c][1..] == [c] && [c][1..] == [];
    assert Run(Next(Next(s, a), b), [c]) == Some(Next(Next(Next(s, a), b), c));
    assert Run(Next(s, a), [b, c]) == Some(Next(Next(Next(s, a), b), c));
  }

  /**
   * Where the code does not converge.  One device deletes a file, the other uploads it before
   * its monitor pops that delete: the delete is then sent after the upload, and the uploading
   * device is left idle without the file that the server holds.
   */
  lemma OvertakenUploadIsLost(s: State, user: string, ip: string, other: string, name: string, content: Bytes)
    requires ip != other && Device(user, ip) in s.subs && Device(user, other) in s.subs
    requires Idle(s.subs[Device(user, ip)]) && s.subs[Device(user, ip)].queue == []
    ensures var k := Key(user, name);
      var end := Run(s, [Mutate(k, None, Data(user, other)), Mutate(k, Some(content), Data(user, ip)),
        Pop(Device(user, ip))]);
      && end.Some? && Device(user, ip) in end.value.subs
      && var me := end.value.subs[Device(user, ip)];
      && Idle(me) && me.queue == []
      && Get(end.value.store, k) == Some(content) && k !in me.replica
  {
    hide Run, Next, Enabled;
    var k := Key(user, name);
    var id := Device(user, ip);
    var a, b := Mutate(k, None, Data(user, other)), Mutate(k, Some(content), Data(user, ip));
    DeletedElsewhere(s, user, ip, other, k);
    var s1 := Next(s, a);
    UploadedHere(s1, user, ip, k, content);
    var s2 := Next(s1, b);
    PopsDelete(s2, id, k);
    RunThree(s, a, b, Pop(id));
  }

  lemma DeletedElsewhere(s: State, user: string, ip: string, other: string, k: Key)
    requires ip != other && Device(user, ip) in s.subs && Device(user, other) in s.subs && k.user == user
    requires Idle(s.subs[Device(user, ip)]) && s.subs[Device(user, ip)].queue == []
    ensures var step := Mutate(k, None, Data(user, other));
      && Enabled(s, step) && Device(user, ip) in Next(s, step).subs
      && Next(s, step).subs[Device(user, ip)].queue == [Change(k, FileDeleted)]
      && Idle(Next(s, step).subs[Device(user, ip)])
  {}

  lemma UploadedHere(s: State, user: string, ip: string, k: Key, content: Bytes)
    requires Device(user, ip) in s.subs && k.user == user && Idle(s.subs[Device(user, ip)])
    ensures var step := Mutate(k, Some(content), Data(user, ip));
      && Enabled(s, step) && Device(user, ip) in Next(s, step).subs && Idle(Next(s, step).subs[Device(user, ip)])
      && Next(s, step).subs[Device(user, ip)].queue == s.subs[Device(user, ip)].queue
      && Get(Next(s, step).store, k) == Some(content)
  {}

  lemma PopsDelete(s: State, id: Id, k: Key)
    requires id in s.subs && Idle(s.subs[id]) && s.subs[id].queue == [Change(k, FileDeleted)]
    ensures Enabled(s, Pop(id)) && id in Next(s, Pop(id)).subs && Idle(Next(s, Pop(id)).subs[id])
    ensures Next(s, Pop(id)).subs[id].queue == [] && k !in Next(s, Pop(id)).subs[id].replica
    ensures Next(s, Pop(id)).store == s.store
  {}

  // ---- coming back ----

  /**
   * A subscriber that joins with files on its disk comes right on a key if and only if the key is not
   * among them or is still in the store.
   */
  lemma ReturnIsExact(s: State, id: Id, left: Store, k: Key)
    requires Inv(s) && Enabled(s, Join(id, left)) && InScope(id, k)
    ensures var t := Next(s, Join(id, left));
      Get(Drained(id, t.subs[id], t.store), k) == Get(t.store, k) <==> (k in left ==> k in s.store)
  {
    hide Drained;
    RightAfterStep(s, Join(id, left), id, k);
  }

  predicate Leaves(step: Step, id: Id) {
    step == Leave(id)
  }

  predicate Changes(step: Step, k: Key) {
    step.Mutate? && step.key == k
  }

  /** Nothing but a change of the file itself, or leaving, ever makes up for it. */
  lemma {:induction false} StaysLost(s: State, steps: seq<Step>, id: Id, k: Key)
    requires Inv(s) && Run(s, steps).Some? && id in s.subs && InScope(id, k) && k in s.subs[id].lost
    requires forall step | step in steps :: !Leaves(step, id) && !Changes(step, k)
    ensures var t := Run(s, steps).value;
      && id in t.subs && k in t.subs[id].lost
      && Get(Drained(id, t.subs[id], t.store), k) != Get(t.store, k)
    decreases |steps|
  {
    hide Drained, Get;
    if steps == [] {
      assert SubInv(id, s.subs[id], s);
    } else {
      assert !Leaves(steps[0], id) && !Changes(steps[0], k);
      var t := Next(s, steps[0]);
      InvStep(s, steps[0]);
      assert !Decides(steps[0], id, k);
      LostAfterStep(s, steps[0], id, k);
      assert forall step | step in steps[1..] :: step in steps;
      StaysLost(t, steps[1..], id, k);
    }
  }

  lemma ComesBackLost(s: State, id: Id, left: Store, k: Key)
    requires Enabled(s, Join(id, left)) && k in left && k !in s.store
    ensures var t := Next(s, Join(id, left));
      id in t.subs && InScope(id, k) && k in t.subs[id].lost
  {}

  /**
   * Where returning subscribers do not converge.  A subscriber leaves with a file on its disk, a
   * device deletes the file, the subscriber returns with its disk as it was.  Whatever happens then
   * short of a change of that file, once all that is left has been sent the subscriber has not what
   * the server has.
   */
  lemma ReturningWithADeletedFile(
    s: State, id: Id, k: Key, ip: string, steps: seq<Step>)
    requires Inv(s) && id in s.subs && k in s.subs[id].replica
    requires Device(k.user, ip) in s.subs && Device(k.user, ip) != id
    requires var gone := [Leave(id), Mutate(k, None, Data(k.user, ip)), Join(id, s.subs[id].replica)];
      Run(s, gone).Some? && Run(Run(s, gone).value, steps).Some?
    requires forall step | step in steps :: !Leaves(step, id) && !Changes(step, k)
    ensures var gone := [Leave(id), Mutate(k, None, Data(k.user, ip)), Join(id, s.subs[id].replica)];
      var t := Run(Run(s, gone).value, steps).value;
      && id in t.subs && Get(Drained(id, t.subs[id], t.store), k) != Get(t.store, k)
      && (Idle(t.subs[id]) && t.subs[id].queue == [] ==> Get(t.subs[id].replica, k) != Get(t.store, k))
  {
    hide Drained, Get, Run, Leaves, Changes, Inv;
    var a, b, c := Leave(id), Mutate(k, None, Data(k.user, ip)), Join(id, s.subs[id].replica);
    RunThreeSteps(s, a, b, c);
    InvRun(s, [a, b, c]);
    var u := Run(s, [a, b, c]).value;
    ComesBackLost(Next(Next(s, a), b), id, s.subs[id].replica, k);
    StaysLost(u, steps, id, k);
    var t := Run(u, steps).value;
    if Idle(t.subs[id]) && t.subs[id].queue == [] { NothingLeft(id, t.subs[id], t.store); }
  }

  lemma RunThreeSteps(s: State, a: Step, b: Step, c: Step)
    requires Run(s, [a, b, c]).Some?
    ensures Enabled(s, a) && Enabled(Next(s, a), b) && Enabled(Next(Next(s, a), b), c)
    ensures Run(s, [a, b, c]) == Some(Next(Next(Next(s, a), b), c))
  {
    hide Enabled, Next;
    assert [a, b, c][1..] == [b, c] && [b, c][1..] == [c] && [c][1..] == [];
    assert Run(s, [a, b, c]) == Run(Next(s, a), [b, c]);
    assert Run(Next(s, a), [b, c]) == Run(Next(Next(s, a), b), [c]);
  }

  lemma {:induction false} RunSnoc(s: State, steps: seq<Step>, step: Step)
    requires Run(s, steps).Some? && Enabled(Run(s, steps).value, step)
    ensures Run(s, steps + [step]) == Some(Next(Run(s, steps).value, step))
    decreases |steps|
  {
    hide Enabled, Next;
    if steps == [] {
      assert ([] + [step])[1..] == [];
      assert Run(Next(s, step), []) == Some(Next(s, step));
    } else {
      assert (steps + [step])[1..] == steps[1..] + [step];
      RunSnoc(Next(s, steps[0]), steps[1..], step);
    }
  }

  /** A backup and a device join a server with one file, and the file is sent to the backup. */
  function Mirroring(k: Key, ip: string, backup: string): seq<Step> {
    [Join(Device(k.user, ip), map[])] + [Join(Backup(backup), map[])] + [Open(Backup(backup), {k.user})]
    + [List(Backup(backup), k.user, [k])] + [SyncSend(Backup(backup))]
  }

  /** The device deletes the file while the backup is away with it. */
  function Returning(k: Key, content: Bytes, ip: string, backup: string): seq<Step> {
    Mirroring(k, ip, backup) + [Leave(Backup(backup))] + [Mutate(k, None, Data(k.user, ip))]
    + [Join(Backup(backup), map[k := content])] + [Open(Backup(backup), {})]
  }

  lemma MirroringRun(k: Key, content: Bytes, ip: string, backup: string)
    ensures var id := Backup(backup);
      var end := Run(Start(map[k := content]), Mirroring(k, ip, backup));
      && end.Some? && end.value.subs.Keys == {id, Device(k.user, ip)}
      && end.value.store == map[k := content] && end.value.subs[id].replica == map[k := content]
      && Idle(end.value.subs[id]) && end.value.subs[id].queue == []
  {
    hide Run;
    var id, device := Backup(backup), Device(k.user, ip);
    var s0 := Start(map[k := content]);
    assert Devices(s0, k.user) == {};
    var s1 := Next(s0, Join(device, map[]));
    RunNothing(s0);
    RunSnoc(s0, [], Join(device, map[]));
    var a := [Join(device, map[])];
    assert [] + a == a;
    RunSnoc(s0, a, Join(id, map[]));
    var s2 := Next(s1, Join(id, map[]));
    RunSnoc(s0, a + [Join(id, map[])], Open(id, {k.user}));
    var s3 := Next(s2, Open(id, {k.user}));
    RunSnoc(s0, a + [Join(id, map[])] + [Open(id, {k.user})], List(id, k.user, [k]));
    var s4 := Next(s3, List(id, k.user, [k]));
    RunSnoc(s0, a + [Join(id, map[])] + [Open(id, {k.user})] + [List(id, k.user, [k])], SyncSend(id));
  }

  lemma RunNothing(s: State)
    ensures Run(s, []) == Some(s)
  {}

  /** Such a run exists: the backup mirrors the one file there is, and ends idle without anything to mirror. */
  lemma ReturningBackupKeepsDeletedFile(k: Key, content: Bytes, ip: string, backup: string)
    ensures var id := Backup(backup);
      var before := Run(Start(map[k := content]), Mirroring(k, ip, backup));
      var end := Run(Start(map[k := content]), Returning(k, content, ip, backup));
      && before.Some? && id in before.value.subs && before.value.subs[id].replica == map[k := content]
      && end.Some? && end.value.store == map[]
      && id in end.value.subs && Idle(end.value.subs[id]) && end.value.subs[id].queue == []
      && end.value.subs[id].replica == map[k := content]
  {
    hide Run, Mirroring;
    MirroringRun(k, content, ip, backup);
    var id, s0, a := Backup(backup), Start(map[k := content]), Mirroring(k, ip, backup);
    var s1 := Run(s0, a).value;
    var b, c, d := Mutate(k, None, Data(k.user, ip)), Join(id, map[k := content]), Open(id, {});
    RunSnoc(s0, a, Leave(id));
    var s2 := Next(s1, Leave(id));
    RunSnoc(s0, a + [Leave(id)], b);
    var s3 := Next(s2, b);
    assert s3.store == map[];
    RunSnoc(s0, a + [Leave(id)] + [b], c);
    RunSnoc(s0, a + [Leave(id)] + [b] + [c], d);
  }

  // ---- backups ----

  /**
   * Backup convergence over all users, for any number of backups, each joining and leaving at any time
   * and coming back with whatever it had: if it never brings back a deleted file and misses no command,
   * it always drains to the whole store, and holds it when idle with nothing queued.
   */
  lemma BackupsConverge(store: Store, steps: seq<Step>, ip: string)
    requires Run(Start(store), steps).Some? && Unspoilt(Start(store), steps, Backup(ip))
    requires Backup(ip) in Run(Start(store), steps).value.subs
    ensures var s := Run(Start(store), steps).value;
      var id := Backup(ip);
      && Drained(id, s.subs[id], s.store) == s.store
      && (Idle(s.subs[id]) && s.subs[id].queue == [] ==> s.subs[id].replica == s.store)
  {
    hide Drained, Run, Unspoilt;
    Converges(store, steps, Backup(ip));
    var s := Run(Start(store), steps).value;
    SameStore(View(Backup(ip), s.store), s.store);
  }

  /** Whenever the backup joins, all it brings back is still in the store. */
  predicate ReturnsClean(s: State, steps: seq<Step>, ip: string)
    decreases |steps|
  {
    steps == [] || (Enabled(s, steps[0]) ==>
      && (steps[0].Join? && steps[0].id == Backup(ip) ==> steps[0].left.Keys <= s.store.Keys)
      && ReturnsClean(Next(s, steps[0]), steps[1..], ip))
  }

  /** With changes through the data channel alone, only bringing back a deleted file spoils anything for a backup. */
  lemma {:induction false} DataChannelSpoilsNothing(s: State, steps: seq<Step>, ip: string)
    requires Run(s, steps).Some? && forall step | step in steps && step.Mutate? :: step.origin.Data?
    ensures Unspoilt(s, steps, Backup(ip)) <==> ReturnsClean(s, steps, ip)
    decreases |steps|
  {
    hide Overtaken, Missed;
    if steps != [] {
      assert steps[0] in steps && forall step | step in steps[1..] :: step in steps;
      DataChannelSpoilsNothing(Next(s, steps[0]), steps[1..], ip);
      if steps[0].Join? && steps[0].id == Backup(ip) && !(steps[0].left.Keys <= s.store.Keys) {
        var k :| k in steps[0].left && k !in s.store;
        assert Spoils(s, Backup(ip), steps[0], k);
      }
    }
  }

  lemma StillThere(s: State, step: Step, id: Id)
    requires Enabled(s, step) && step.Mutate? && id in s.subs
    ensures id in Next(s, step).subs
  {}

  /**
   * The command channel does not notify backups.  After a command, a backup comes right on its file if
   * and only if the command was not missed: a create still queued or listed carries it along, and so
   * does a delete still queued.  A backup that was up to date with nothing left to receive misses
   * exactly the commands that change the store.
   */
  lemma CommandsAreMissedByBackups(s: State, ip: string, step: Step)
    requires Inv(s) && Enabled(s, step) && step.Mutate? && step.origin.Command? && Backup(ip) in s.subs
    ensures var id := Backup(ip);
      var t := Next(s, step);
      (Get(Drained(id, t.subs[id], t.store), step.key) == Get(t.store, step.key))
        <==> !Missed(s.subs[id], step.key, step.now)
    ensures var sub := s.subs[Backup(ip)];
      Idle(sub) && sub.queue == [] && sub.replica == s.store ==>
        (Missed(sub, step.key, step.now) <==> Get(s.store, step.key) != step.now)
  {
    hide Drained, Inv, Next, Overtaken, Touched;
    assert Backup(ip) in Next(s, step).subs by {
      StillThere(s, step, Backup(ip));
    }
    RightAfterStep(s, step, Backup(ip), step.key);
  }

  /** Such a run: a file made through the command channel never reaches a backup that was up to date. */
  lemma MissedCommandRun(k: Key, content: Bytes, ip: string, backup: string)
    ensures var end := Run(Start(map[]),
        [Join(Device(k.user, ip), map[])] + [Join(Backup(backup), map[])] + [Open(Backup(backup), {})]
        + [Mutate(k, Some(content), Command(k.user))]);
      && end.Some? && end.value.store == map[k := content]
      && Backup(backup) in end.value.subs && Idle(end.value.subs[Backup(backup)])
      && end.value.subs[Backup(backup)].queue == [] && end.value.subs[Backup(backup)].replica == map[]
  {
    hide Run;
    var s0, a, b := Start(map[]), Join(Device(k.user, ip), map[]), Join(Backup(backup), map[]);
    assert Devices(s0, k.user) == {};
    RunNothing(s0);
    RunSnoc(s0, [], a);
    assert [] + [a] == [a];
    var s1 := Next(s0, a);
    RunSnoc(s0, [a], b);
    var s2 := Next(s1, b);
    var c, d := Open(Backup(backup), {}), Mutate(k, Some(content), Command(k.user));
    RunSnoc(s0, [a] + [b], c);
    var s3 := Next(s2, c);
    assert Device(k.user, ip) in s3.subs && Enabled(s3, d);
    RunSnoc(s0, [a] + [b] + [c], d);
  }

  // ---- across a failover ----

  /**
   * The primary dies at any moment, whatever was still queued or being sent.  A backup is promoted with
   * its files, and a survivor, backup or device, returns to it with its own: it drains to its part of the
   * new primary's store if and only if every file that it has is one the winner has too.
   */
  lemma SurvivorsConvergeExactlyWhen(winner: Store, id: Id, survivor: Store)
    requires Enabled(Start(winner), Join(id, survivor))
    ensures var t := Next(Start(winner), Join(id, survivor));
      Drained(id, t.subs[id], winner) == View(id, winner) <==> survivor.Keys <= winner.Keys
  {
    hide Drained, Inv;
    var back := Join(id, survivor);
    InvStart(winner);
    InvStep(Start(winner), back);
    var t := Next(Start(winner), back);
    DrainedIsView(t, id);
    var gone := survivor.Keys - winner.Keys;
    assert t.subs[id].lost == gone;
    forall k | k in survivor.Keys
      ensures gone == {} ==> k in winner.Keys
    {
      assert k in gone || k in winner.Keys;
    }
  }

  /**
   * And later on: whatever then happens under the new primary, a file comes right on the survivor if and
   * only if the last step that changed it, or rejoined the survivor, did not spoil it; while there was no
   * such step, if and only if the winner has the file or the survivor has not.
   */
  lemma SurvivorComesRightExactlyWhen(winner: Store, id: Id, survivor: Store, after: seq<Step>, k: Key)
    requires InScope(id, k) && Run(Start(winner), [Join(id, survivor)] + after).Some?
    requires id in Run(Start(winner), [Join(id, survivor)] + after).value.subs
    ensures var t := Run(Start(winner), [Join(id, survivor)] + after).value;
      (Get(Drained(id, t.subs[id], t.store), k) == Get(t.store, k))
        <==> LastVerdict(Next(Start(winner), Join(id, survivor)), after, id, k, k in survivor ==> k in winner)
  {
    hide Drained, Next, Enabled;
    var steps := [Join(id, survivor)] + after;
    assert steps[0] == Join(id, survivor) && steps[1..] == after;
    ComesRightExactlyWhen(winner, steps, id, k);
  }

  /**
   * In particular, if winner and survivor were both up to date when the primary died, the survivor has lost
   * nothing and drains to the new primary's store under any further run that spoils nothing for it.
   */
  lemma SurvivorsConverge(store: Store, steps: seq<Step>, winner: string, survivor: string, after: seq<Step>)
    requires Run(Start(store), steps).Some? && winner != survivor
    requires Unspoilt(Start(store), steps, Backup(winner)) && Unspoilt(Start(store), steps, Backup(survivor))
    requires var s := Run(Start(store), steps).value;
      && Backup(winner) in s.subs && Idle(s.subs[Backup(winner)]) && s.subs[Backup(winner)].queue == []
      && Backup(survivor) in s.subs && Idle(s.subs[Backup(survivor)]) && s.subs[Backup(survivor)].queue == []
    requires var s := Run(Start(store), steps).value;
      var back := Join(Backup(survivor), s.subs[Backup(survivor)].replica);
      var new' := Start(s.subs[Backup(winner)].replica);
      && Run(new', [back] + after).Some? && Unspoilt(Next(new', back), after, Backup(survivor))
      && Backup(survivor) in Run(new', [back] + after).value.subs
    ensures var s := Run(Start(store), steps).value;
      var back := Join(Backup(survivor), s.subs[Backup(survivor)].replica);
      var t := Run(Start(s.subs[Backup(winner)].replica), [back] + after).value;
      Drained(Backup(survivor), t.subs[Backup(survivor)], t.store) == t.store
  {
    hide Drained;
    var s := Run(Start(store), steps).value;
    BackupsConverge(store, steps, winner);
    BackupsConverge(store, steps, survivor);
    var back := Join(Backup(survivor), s.subs[Backup(survivor)].replica);
    var new' := Start(s.subs[Backup(winner)].replica);
    assert ([back] + after)[1..] == after;
    assert forall k :: !Spoils(new', Backup(survivor), back, k);
    BackupsConverge(new'.store, [back] + after, survivor);
  }

  /** Two backups and a device join an empty server, a file is uploaded, and one of the backups is sent it. */
  function HalfSent(k: Key, content: Bytes, ip: string, behind: string, ahead: string): seq<Step> {
    [Join(Device(k.user, ip), map[])] + [Join(Backup(behind), map[])] + [Join(Backup(ahead), map[])]
    + [Open(Backup(ahead), {})] + [Mutate(k, Some(content), Data(k.user, ip))] + [Pop(Backup(ahead))]
  }

  /**
   * Where a failover divides the backups: the primary dies when one of them has been sent an upload that the
   * other has not, and the other wins.  The first keeps a file that its new primary does not have.
   */
  lemma UnsentUploadDividesBackups(k: Key, content: Bytes, ip: string, behind: string, ahead: string)
    requires behind != ahead
    ensures var died := Run(Start(map[]), HalfSent(k, content, ip, behind, ahead));
      && died.Some? && Backup(behind) in died.value.subs && Backup(ahead) in died.value.subs
      && var winner := died.value.subs[Backup(behind)].replica;
      && var survivor := died.value.subs[Backup(ahead)].replica;
      && k in survivor && k !in winner
      && var t := Next(Start(winner), Join(Backup(ahead), survivor));
      && Drained(Backup(ahead), t.subs[Backup(ahead)], winner) != winner
  {
    hide Run, Drained;
    HalfSentRun(k, content, ip, behind, ahead);
    var died := Run(Start(map[]), HalfSent(k, content, ip, behind, ahead)).value;
    var winner, survivor := died.subs[Backup(behind)].replica, died.subs[Backup(ahead)].replica;
    assert Devices(Start(winner), "") == {};
    SurvivorsConvergeExactlyWhen(winner, Backup(ahead), survivor);
    SameStore(View(Backup(ahead), winner), winner);
    assert k in survivor.Keys && k !in winner.Keys;
  }

  lemma HalfSentRun(k: Key, content: Bytes, ip: string, behind: string, ahead: string)
    requires behind != ahead
    ensures var died := Run(Start(map[]), HalfSent(k, content, ip, behind, ahead));
      && died.Some? && Backup(behind) in died.value.subs && Backup(ahead) in died.value.subs
      && died.value.subs[Backup(behind)].replica == map[]
      && died.value.subs[Backup(ahead)].replica == map[k := content]
  {
    hide Run;
    var s0, a := Start(map[]), Join(Device(k.user, ip), map[]);
    assert Devices(s0, k.user) == {};
    RunNothing(s0);
    RunSnoc(s0, [], a);
    assert [] + [a] == [a];
    var s1 := Next(s0, a);
    var b, c := Join(Backup(behind), map[]), Join(Backup(ahead), map[]);
    RunSnoc(s0, [a], b);
    var s2 := Next(s1, b);
    RunSnoc(s0, [a] + [b], c);
    var s3 := Next(s2, c);
    var d, e := Open(Backup(ahead), {}), Mutate(k, Some(content), Data(k.user, ip));
    RunSnoc(s0, [a] + [b] + [c], d);
    var s4 := Next(s3, d);
    RunSnoc(s0, [a] + [b] + [c] + [d], e);
    var s5 := Next(s4, e);
    assert s5.subs[Backup(ahead)].queue == [Change(k, FileCreated)];
    RunSnoc(s0, [a] + [b] + [c] + [d] + [e], Pop(Backup(ahead)));
  }

  // ---- draining happens ----

  /** A step of the monitor of this subscriber. */
  predicate OwnStep(step: Step, id: Id) {
    match step
    case Open(other, _) => other == id
    case List(other, _, _) => other == id
    case SyncSend(other) => other == id
    case Pop(other) => other == id
    case _ => false
  }

  lemma {:induction false} AsSequence(keys: set<Key>) returns (listing: seq<Key>)
    ensures forall k :: k in listing <==> k in keys
  {
    if keys == {} {
      listing := [];
    } else {
      var k :| k in keys;
      var rest := AsSequence(keys - {k});
      listing := [k] + rest;
    }
  }

  /** What the monitor can do next, if it has anything left to do: nothing that others do is needed. */
  lemma MonitorCanGoOn(s: State, id: Id) returns (step: Step)
    requires id in s.subs && !(Idle(s.subs[id]) && s.subs[id].queue == [])
    ensures OwnStep(step, id) && Enabled(s, step)
    ensures var sub := s.subs[id];
      if !sub.started then step.Open? && step.dirs == (set k | k in s.store :: k.user)
      else if sub.sync != [] then step.SyncSend?
      else if sub.todo != {} then step.List? && step.user in sub.todo
      else step.Pop?
  {
    var sub := s.subs[id];
    if !sub.started {
      step := Open(id, set k | k in s.store :: k.user);
    } else if sub.sync != [] {
      step := SyncSend(id);
    } else if sub.todo != {} {
      var user :| user in sub.todo;
      var listing := AsSequence(set k | k in s.store && k.user == user && InScope(id, k));
      step := List(id, user, listing);
    } else {
      step := Pop(id);
    }
  }

  lemma OwnStepMoves(s: State, step: Step, id: Id)
    requires Enabled(s, step) && OwnStep(step, id) && id in s.subs
    ensures var t := Next(s, step);
      && t.store == s.store && t.log == s.log && id in t.subs && t.subs == s.subs[id := t.subs[id]]
    ensures var sub, sub' := s.subs[id], Next(s, step).subs[id];
      && (step.Open? ==> sub'.started && sub'.sync == sub.sync && sub'.queue == sub.queue)
      && (step.List? ==> sub'.started && sub'.todo == sub.todo - {step.user} && sub'.queue == sub.queue)
      && (step.SyncSend? ==>
            sub'.started == sub.started && sub'.todo == sub.todo && |sub'.sync| < |sub.sync| && sub'.queue == sub.queue)
      && (step.Pop? ==>
            sub'.started && sub'.todo == sub.todo && sub'.sync == sub.sync && |sub'.queue| < |sub.queue|)
  {}

  /**
   * Left alone, a monitor comes to its end: from every state some run of its own steps leaves the subscriber
   * idle with nothing queued and with exactly the replica that draining promises, and nobody else touched.
   */
  lemma {:induction false} DrainingHappens(s: State, id: Id) returns (steps: seq<Step>)
    requires Inv(s) && id in s.subs
    ensures Run(s, steps).Some? && forall step | step in steps :: OwnStep(step, id)
    ensures var t := Run(s, steps).value;
      && t.store == s.store && id in t.subs && t.subs == s.subs[id := t.subs[id]]
      && Idle(t.subs[id]) && t.subs[id].queue == []
      && t.subs[id].replica == Drained(id, s.subs[id], s.store)
    decreases !s.subs[id].started, s.subs[id].todo, |s.subs[id].sync|, |s.subs[id].queue|
  {
    hide Inv, Drained, Next, Enabled;
    if Idle(s.subs[id]) && s.subs[id].queue == [] {
      steps := [];
      NothingLeft(id, s.subs[id], s.store);
      assert s.subs == s.subs[id := s.subs[id]];
    } else {
      var step := MonitorCanGoOn(s, id);
      OwnStepMoves(s, step, id);
      MonitorStepKeeps(s, step);
      InvStep(s, step);
      var t := Next(s, step);
      var rest := DrainingHappens(t, id);
      steps := [step] + rest;
      assert steps[1..] == rest;
      assert Run(s, steps) == Run(t, rest);
      assert s.subs[id := t.subs[id]][id := Run(t, rest).value.subs[id]] == s.subs[id := Run(t, rest).value.subs[id]];
    }
  }

  /** Who may act, and when: nobody waits for anybody else. */
  lemma WhoMayAct(s: State, id: Id, left: Store, key: Key, now: Option<Bytes>, ip: string)
    ensures Enabled(s, Leave(id)) <==> id in s.subs
    ensures id.Backup? ==> (Enabled(s, Join(id, left)) <==> id !in s.subs)
    ensures Enabled(s, SyncSend(id)) <==> id in s.subs && s.subs[id].sync != []
    ensures Enabled(s, Pop(id)) <==> id in s.subs && Idle(s.subs[id]) && s.subs[id].queue != []
    ensures Enabled(s, Mutate(key, now, Data(key.user, ip))) <==> Device(key.user, ip) in s.subs
    ensures Enabled(s, Mutate(key, now, Command(key.user)))
      <==> exists other | other in s.subs :: other.Device? && other.user == key.user
  {}

  // ---- delivery ----

  /**
   * For every subscriber of every run: the changes popped, followed by those still queued, are
   * exactly the changes made since it joined that are its business, in order.
   */
  lemma ChangesAreDeliveredInOrder(store: Store, steps: seq<Step>, id: Id)
    requires Run(Start(store), steps).Some? && id in Run(Start(store), steps).value.subs
    ensures var s := Run(Start(store), steps).value;
      && s.subs[id].since <= |s.log|
      && s.subs[id].popped + s.subs[id].queue == Selected(id, s.log[s.subs[id].since..])
  {
    InvStart(store);
    InvRun(Start(store), steps);
    var s := Run(Start(store), steps).value;
    assert SubInv(id, s.subs[id], s);
  }

  // ---- down to the bytes ----

  /**
   * Bytes to replicas: take any run, a backup at any moment of it, and any byte stream that carries what was
   * sent to it since it joined, with list and id updates interleaved anywhere.  If the backup had on its disk
   * what it joined with, then consuming those bytes leaves it with exactly the replica of the engine.  With
   * nothing left to receive it has the primary's file, or absence of a file, for exactly the keys that the run
   * did not spoil, and the whole store if no step of the run spoiled anything for it.
   */
  lemma BackupHoldsPrimaryStore(
    store: Store, steps: seq<Step>, ip: string, c: Codec, ops: seq<ReplicaOp>, chunkSize: nat, v: BackupView)
    requires Run(Start(store), steps).Some? && Backup(ip) in Run(Start(store), steps).value.subs
    requires FileOps(ops) == Run(Start(store), steps).value.subs[Backup(ip)].sent
    requires v.store == Run(Start(store), steps).value.subs[Backup(ip)].left
    requires Payloads.Faithful(c) && chunkSize > 0 && !v.crashed
    requires forall op | op in ops :: SendableOp(c, op)
    ensures var s := Run(Start(store), steps).value;
      var held := Monitor(c, v, StreamOf(c, ToBackup, ops, chunkSize)).view.store;
      && held == s.subs[Backup(ip)].replica
      && (Idle(s.subs[Backup(ip)]) && s.subs[Backup(ip)].queue == [] ==>
            && (forall k :: Get(held, k) == Get(s.store, k) <==> LastVerdict(Start(store), steps, Backup(ip), k, true))
            && (Unspoilt(Start(store), steps, Backup(ip)) ==> held == s.store))
  {
    hide Monitor, StreamOf, SendableOp, Run, LastVerdict, Unspoilt, Drained, Get;
    var id := Backup(ip);
    var s := Run(Start(store), steps).value;
    InvStart(store);
    InvRun(Start(store), steps);
    assert SubInv(id, s.subs[id], s);
    StreamMeansOperations(c, ToBackup, v, ops, chunkSize);
    ListUpdatesDoNotTouchFiles(v.ToDirect(), Holding(v.store), ops);
    if Idle(s.subs[id]) && s.subs[id].queue == [] {
      NothingLeft(id, s.subs[id], s.store);
      forall k
        ensures Get(s.subs[id].replica, k) == Get(s.store, k) <==> LastVerdict(Start(store), steps, id, k, true)
      {
        ComesRightExactlyWhen(store, steps, id, k);
      }
      if Unspoilt(Start(store), steps, id) { BackupsConverge(store, steps, ip); }
    }
  }
}
