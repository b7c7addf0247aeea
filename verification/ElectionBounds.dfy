/**
 * How long an election lasts and how many messages it takes, on any network, and why its timeout must
 * exceed two delays.
 */
module ElectionBounds {
  import opened Bytes
  import opened Election

  // ---- termination ----

  /** Work left in a message: its answer, and the time it may still take. */
  function Work(c: Config, m: Msg, now: nat): nat {
    (if m.kind.Election? || m.kind.Coordinator? then c.delay + 2 else 1)
    + (if m.sentAt + c.delay > now then m.sentAt + c.delay - now else 0)
  }

  /** Work of one turn of the loop of declareVictory: the turn, its message and the answer. */
  function TurnWork(c: Config): nat {
    2 * c.delay + 3
  }

  function DeclareWork(c: Config, next: nat, awaiting: bool): nat {
    (if next < |c.nodes| then (|c.nodes| - next) * (TurnWork(c) + 1) else 0) + (if awaiting then 0 else TurnWork(c))
  }

  function Effort(c: Config, p: Proc, now: nat): nat {
    match p
    case Unstarted => StartWork(c)
    case Waiting(start, _) =>
      DeclareWork(c, 0, false) + 1 + (if start + c.timeout > now then start + c.timeout - now else 0)
    case Passive => 0
    case Declaring(next, awaiting) => DeclareWork(c, next, awaiting)
    case Won => 0
  }

  function StartWork(c: Config): nat {
    DeclareWork(c, 0, false) + 2 + c.timeout + |c.nodes| * (2 * c.delay + 2)
  }

  function MsgsWork(c: Config, msgs: seq<Msg>, now: nat): nat {
    if msgs == [] then 0 else MsgsWork(c, msgs[..|msgs| - 1], now) + Work(c, msgs[|msgs| - 1], now)
  }

  function ProcsEffort(c: Config, procs: seq<Proc>, now: nat): nat {
    if procs == [] then 0 else ProcsEffort(c, procs[..|procs| - 1], now) + Effort(c, procs[|procs| - 1], now)
  }

  function Potential(c: Config, s: State): nat {
    MsgsWork(c, s.msgs, s.now) + ProcsEffort(c, s.procs, s.now)
  }

  lemma {:induction false} MsgsWorkConcat(c: Config, a: seq<Msg>, b: seq<Msg>, now: nat)
    ensures MsgsWork(c, a + b, now) == MsgsWork(c, a, now) + MsgsWork(c, b, now)
  {
    if b == [] {
      assert a + b == a;
    } else {
      assert (a + b)[..|a + b| - 1] == a + b[..|b| - 1];
      MsgsWorkConcat(c, a, b[..|b| - 1], now);
    }
  }

  lemma MsgsWorkOne(c: Config, m: Msg, now: nat)
    ensures MsgsWork(c, [m], now) == Work(c, m, now)
  {
    assert [m][..0] == [];
  }

  lemma MsgsWorkRemove(c: Config, msgs: seq<Msg>, k: nat, now: nat)
    requires k < |msgs|
    ensures MsgsWork(c, msgs, now) == MsgsWork(c, msgs[..k] + msgs[k + 1..], now) + Work(c, msgs[k], now)
  {
    assert msgs == (msgs[..k] + [msgs[k]]) + msgs[k + 1..];
    MsgsWorkConcat(c, msgs[..k] + [msgs[k]], msgs[k + 1..], now);
    MsgsWorkConcat(c, msgs[..k], [msgs[k]], now);
    MsgsWorkConcat(c, msgs[..k], msgs[k + 1..], now);
    MsgsWorkOne(c, msgs[k], now);
  }

  lemma {:induction false} ProcsEffortUpdate(c: Config, procs: seq<Proc>, i: nat, p: Proc, now: nat)
    requires i < |procs|
    ensures ProcsEffort(c, procs[i := p], now)
      == ProcsEffort(c, procs, now) - Effort(c, procs[i], now) + Effort(c, p, now)
  {
    var front := procs[..|procs| - 1];
    if i == |procs| - 1 {
      assert procs[i := p][..|procs| - 1] == front;
    } else {
      assert procs[i := p][..|procs| - 1] == front[i := p];
      ProcsEffortUpdate(c, front, i, p, now);
    }
  }

  /** Time passing takes work out of every message that is still in time. */
  lemma {:induction false} MsgsWorkTick(c: Config, msgs: seq<Msg>, now: nat)
    requires forall m | m in msgs :: now < m.sentAt + c.delay
    ensures MsgsWork(c, msgs, now + 1) + |msgs| == MsgsWork(c, msgs, now)
  {
    if msgs != [] {
      assert msgs[|msgs| - 1] in msgs;
      MsgsWorkTick(c, msgs[..|msgs| - 1], now);
    }
  }

  lemma {:induction false} ProcsEffortTick(c: Config, procs: seq<Proc>, now: nat)
    ensures ProcsEffort(c, procs, now + 1) <= ProcsEffort(c, procs, now)
    ensures (exists i | 0 <= i < |procs| :: Running(c, procs[i], now)) ==>
      ProcsEffort(c, procs, now + 1) < ProcsEffort(c, procs, now)
  {
    if procs != [] {
      var front := procs[..|procs| - 1];
      ProcsEffortTick(c, front, now);
      forall i | 0 <= i < |procs| - 1 && Running(c, procs[i], now)
        ensures Running(c, front[i], now)
      {}
    }
  }

  lemma {:induction false} ChallengesWork(c: Config, i: nat, now: nat, n: nat)
    requires i < |c.nodes| && n <= |c.nodes|
    ensures MsgsWork(c, Challenges(c, i, now, n), now) <= n * (2 * c.delay + 2)
  {
    if n > 0 {
      ChallengesWork(c, i, now, n - 1);
      assert n * (2 * c.delay + 2) == (n - 1) * (2 * c.delay + 2) + (2 * c.delay + 2);
      MsgsWorkConcat(c, Challenges(c, i, now, n - 1), [Msg(Election.Election, i, n - 1, now)], now);
      MsgsWorkOne(c, Msg(Election.Election, i, n - 1, now), now);
      assert Challenges(c, i, now, n - 1) + [] == Challenges(c, i, now, n - 1);
    }
  }

  lemma StartLowers(c: Config, s: State, i: nat)
    requires i < |c.nodes| == |s.procs|
    ensures Potential(c, StartElection(c, s, i)) <= Potential(c, s)
    ensures s.procs[i].Unstarted? ==> Potential(c, StartElection(c, s, i)) < Potential(c, s)
  {
    hide MsgsWork, ProcsEffort, DeclareWork;
    if s.procs[i].Unstarted? {
      ChallengesWork(c, i, s.now, |c.nodes|);
      MsgsWorkConcat(c, s.msgs, Challenges(c, i, s.now, |c.nodes|), s.now);
      ProcsEffortUpdate(c, s.procs, i, Waiting(s.now, false), s.now);
    }
  }

  lemma DeclareTurnWork(c: Config, next: nat)
    requires next < |c.nodes|
    ensures DeclareWork(c, next, false) == DeclareWork(c, next, true) + TurnWork(c)
    ensures DeclareWork(c, next, true) == DeclareWork(c, next + 1, false) + 1
  {
    assert (|c.nodes| - next) * (TurnWork(c) + 1) == (|c.nodes| - next - 1) * (TurnWork(c) + 1) + (TurnWork(c) + 1);
  }

  lemma ReceiveLowers(c: Config, s: State, k: nat)
    requires Shape(c, s) && k < |s.msgs|
    ensures Potential(c, Next(c, s, Receive(k))) < Potential(c, s)
  {
    hide MsgsWork, ProcsEffort, DeclareWork;
    var m := s.msgs[k];
    assert m in s.msgs;
    var rest := s.msgs[..k] + s.msgs[k + 1..];
    MsgsWorkRemove(c, s.msgs, k, s.now);
    match m.kind {
      case Election =>
        var answer := Msg(Alive, m.to, m.from, s.now);
        MsgsWorkConcat(c, rest, [answer], s.now);
        MsgsWorkOne(c, answer, s.now);
        StartLowers(c, s.(msgs := rest + [answer]), m.to);
      case Alive =>
        if s.procs[m.to].Waiting? {
          ProcsEffortUpdate(c, s.procs, m.to, s.procs[m.to].(ended := true), s.now);
        }
      case Coordinator =>
        var ack := Msg(Ack, m.to, m.from, s.now);
        MsgsWorkConcat(c, rest, [ack], s.now);
        MsgsWorkOne(c, ack, s.now);
      case Ack =>
        if s.procs[m.to] == Declaring(m.from, true) {
          DeclareTurnWork(c, m.from);
          ProcsEffortUpdate(c, s.procs, m.to, Declaring(m.from + 1, false), s.now);
        }
    }
  }

  lemma DeclareLowers(c: Config, s: State, i: nat)
    requires Shape(c, s) && Enabled(c, s, Declare(i))
    ensures Potential(c, Next(c, s, Declare(i))) < Potential(c, s)
  {
    hide MsgsWork, ProcsEffort;
    var t := Next(c, s, Declare(i));
    var next := s.procs[i].next;
    ProcsEffortUpdate(c, s.procs, i, t.procs[i], s.now);
    if next < |c.nodes| {
      DeclareTurnWork(c, next);
      var call := Msg(Coordinator, i, next, s.now);
      MsgsWorkConcat(c, s.msgs, [call], s.now);
      MsgsWorkOne(c, call, s.now);
    }
  }

  lemma TickLowers(c: Config, s: State)
    requires Shape(c, s) && Enabled(c, s, Tick)
    ensures Potential(c, Next(c, s, Tick)) < Potential(c, s)
  {
    MsgsWorkTick(c, s.msgs, s.now);
    ProcsEffortTick(c, s.procs, s.now);
  }

  /** Every step, ticks included, takes work out of the election. */
  lemma StepLowers(c: Config, s: State, step: Step)
    requires Shape(c, s) && Enabled(c, s, step)
    ensures Potential(c, Next(c, s, step)) < Potential(c, s)
  {
    hide MsgsWork, ProcsEffort, DeclareWork;
    match step {
      case Detect(i) => StartLowers(c, s, i);
      case Receive(k) => ReceiveLowers(c, s, k);
      case Hear(i) => ProcsEffortUpdate(c, s.procs, i, Passive, s.now);
      case TimeOut(i) => ProcsEffortUpdate(c, s.procs, i, Declaring(0, false), s.now);
      case Declare(i) => DeclareLowers(c, s, i);
      case Tick => TickLowers(c, s);
    }
  }

  lemma {:induction false} RunLowers(c: Config, s: State, steps: seq<Step>)
    requires Shape(c, s) && Run(c, s, steps).Some?
    ensures |steps| + Potential(c, Run(c, s, steps).value) <= Potential(c, s)
    decreases |steps|
  {
    hide Potential;
    if steps != [] {
      StepLowers(c, s, steps[0]);
      ShapeStep(c, s, steps[0]);
      RunLowers(c, Next(c, s, steps[0]), steps[1..]);
    }
  }

  lemma {:induction false} UnstartedEffort(c: Config, n: nat)
    ensures ProcsEffort(c, seq(n, _ => Unstarted), 0) == n * StartWork(c)
  {
    if n > 0 {
      var procs := seq(n, _ => Unstarted);
      assert procs[..n - 1] == seq(n - 1, _ => Unstarted);
      UnstartedEffort(c, n - 1);
      assert n * StartWork(c) == (n - 1) * StartWork(c) + StartWork(c);
    }
  }

  /**
   * Every election ends: among any nodes, with any timeout and any delay, no run, whatever its
   * interleaving, is longer than this.
   */
  lemma EveryElectionTerminates(c: Config, primary: string, steps: seq<Step>)
    requires Run(c, Init(c, primary), steps).Some?
    ensures |steps| <= |c.nodes| * StartWork(c)
  {
    hide StartWork;
    UnstartedEffort(c, |c.nodes|);
    RunLowers(c, Init(c, primary), steps);
  }

  /** And it never gets stuck on the way: from every state some run leads to one with no enabled step. */
  lemma {:induction false} EveryElectionFinishes(c: Config, s: State) returns (steps: seq<Step>)
    requires Shape(c, s)
    ensures Run(c, s, steps).Some? && Finished(c, Run(c, s, steps).value)
    ensures Finished(c, s) ==> steps == []
    decreases Potential(c, s)
  {
    hide Potential, Enabled, Next, Shape;
    if Finished(c, s) {
      steps := [];
    } else {
      var step :| Enabled(c, s, step);
      StepLowers(c, s, step);
      ShapeStep(c, s, step);
      var rest := EveryElectionFinishes(c, Next(c, s, step));
      steps := [step] + rest;
      assert steps[1..] == rest;
    }
  }

  /** Every run, however far it got, goes on to one winner that all the others follow. */
  lemma EveryRunLeadsToOneWinner(c: Config, primary: string, steps: seq<Step>) returns (more: seq<Step>, w: nat)
    requires Valid(c) && primary != SELF_WIN_IP && Run(c, Init(c, primary), steps).Some?
    ensures Run(c, Init(c, primary), steps + more).Some? && Finished(c, Run(c, Init(c, primary), steps + more).value)
    ensures Finished(c, Run(c, Init(c, primary), steps).value) ==> more == []
    ensures var s := Run(c, Init(c, primary), steps + more).value;
      && Top(c, w) && |s.procs| == |s.address| == |c.nodes| && s.procs[w].Won? && s.address[w] == SELF_WIN_IP
      && forall k | 0 <= k < |c.nodes| && k != w :: s.procs[k].Passive? && s.address[k] == c.nodes[w].ip
  {
    hide Finished, Enabled, Next;
    ShapeRun(c, Init(c, primary), steps);
    more := EveryElectionFinishes(c, Run(c, Init(c, primary), steps).value);
    RunConcat(c, Init(c, primary), steps, more);
    w := FinishedElectionHasOneWinner(c, primary, steps + more);
  }

  // ---- what holds on any network ----

  /** What a process and the messages about it satisfy however long messages take. */
  ghost predicate SlowProc(c: Config, s: State, i: nat)
    requires Shape(c, s) && i < |s.procs|
  {
    match s.procs[i]
    case Waiting(_, ended) => ended ==> !Top(c, i)
    case Passive => !Top(c, i)
    case Declaring(next, awaiting) =>
      awaiting ==> next < |c.nodes| && c.nodes[next].id != c.nodes[i].id && Calling(s, i, next)
    case _ => true
  }

  predicate SlowMsg(c: Config, m: Msg) {
    && (m.kind.Election? ==> Above(c, m.to, m.from))
    && (m.kind.Alive? ==> Above(c, m.from, m.to))
  }

  ghost predicate Slow(c: Config, s: State) {
    && Shape(c, s)
    && (forall m | m in s.msgs :: SlowMsg(c, m))
    && forall i | 0 <= i < |s.procs| :: SlowProc(c, s, i)
  }

  lemma SlowStart(c: Config, s: State, i: nat)
    requires Slow(c, s) && i < |s.procs|
    ensures Slow(c, StartElection(c, s, i))
  {
    var t := StartElection(c, s, i);
    ShapeStart(c, s, i);
    if s.procs[i].Unstarted? {
      ChallengesAre(c, i, s.now, |c.nodes|);
      forall k | 0 <= k < |t.procs|
        ensures SlowProc(c, t, k)
      {
        assert SlowProc(c, s, k);
      }
    }
  }

  /** Taking a message out leaves every process called for that does not get this very message. */
  lemma SlowWithout(c: Config, s: State, t: State, i: nat, m: Msg)
    requires Shape(c, s) && Shape(c, t) && i < |s.procs| && SlowProc(c, s, i) && t.procs[i] == s.procs[i]
    requires forall x | x in s.msgs :: x == m || x in t.msgs
    requires m.kind.Coordinator? ==> Msg(Ack, m.to, m.from, s.now) in t.msgs
    requires m.kind.Ack? ==> s.procs[i] != Declaring(m.from, true) || m.to != i
    ensures SlowProc(c, t, i)
  {
    if s.procs[i].Declaring? && s.procs[i].awaiting {
      var x :| x in s.msgs
        && (x == Msg(Coordinator, i, s.procs[i].next, x.sentAt) || x == Msg(Ack, s.procs[i].next, i, x.sentAt));
      if x == m { assert Msg(Ack, m.to, m.from, s.now) in t.msgs; }
    }
  }

  lemma SlowReceive(c: Config, s: State, k: nat)
    requires Slow(c, s) && k < |s.msgs|
    ensures Slow(c, Next(c, s, Receive(k)))
  {
    var m := s.msgs[k];
    assert m in s.msgs && SlowMsg(c, m);
    Removed(s.msgs, k);
    ShapeStep(c, s, Receive(k));
    var rest := s.(msgs := s.msgs[..k] + s.msgs[k + 1..]);
    var t := if m.kind.Election? then rest.(msgs := rest.msgs + [Msg(Alive, m.to, m.from, s.now)])
      else Next(c, s, Receive(k));
    assert m.kind.Coordinator? ==> t.msgs[|rest.msgs|] == Msg(Ack, m.to, m.from, s.now);
    forall i | 0 <= i < |t.procs|
      ensures SlowProc(c, t, i)
    {
      assert SlowProc(c, s, i);
      if t.procs[i] == s.procs[i] && (m.kind.Ack? ==> s.procs[i] != Declaring(m.from, true) || m.to != i) {
        SlowWithout(c, s, t, i, m);
      }
    }
    if m.kind.Election? { SlowStart(c, t, m.to); }
  }

  lemma SlowStep(c: Config, s: State, step: Step)
    requires Slow(c, s) && Enabled(c, s, step)
    requires step.TimeOut? || step.Hear? || step.Declare? || step.Tick?
    ensures Slow(c, Next(c, s, step))
  {
    ShapeStep(c, s, step);
    var t := Next(c, s, step);
    if step.Declare? && s.procs[step.i].next < |c.nodes| {
      assert Msg(Coordinator, step.i, s.procs[step.i].next, s.now) in t.msgs
        || c.nodes[s.procs[step.i].next].id == c.nodes[step.i].id;
    }
    forall k | 0 <= k < |t.procs|
      ensures SlowProc(c, t, k)
    {
      assert SlowProc(c, s, k);
    }
  }

  // ---- message counts ----

  /** How many of the first `n` listed nodes have a larger id than node `i`. */
  function CountAbove(c: Config, i: nat, n: nat): nat
    requires i < |c.nodes| && n <= |c.nodes|
  {
    if n == 0 then 0 else CountAbove(c, i, n - 1) + if c.nodes[n - 1].id <= c.nodes[i].id then 0 else 1
  }

  lemma {:induction false} ChallengesCount(c: Config, i: nat, now: nat, n: nat)
    requires i < |c.nodes| && n <= |c.nodes|
    ensures |Challenges(c, i, now, n)| == CountAbove(c, i, n)
  {
    if n > 0 { ChallengesCount(c, i, now, n - 1); }
  }

  /** The challenges of the first `k` processes among the first `n` nodes, if `started` says they started. */
  function SumAbove(c: Config, started: seq<bool>, k: nat, n: nat): nat
    requires k <= |c.nodes| == |started| && n <= |c.nodes|
  {
    if k == 0 then 0 else SumAbove(c, started, k - 1, n) + if started[k - 1] then CountAbove(c, k - 1, n) else 0
  }

  function Started(s: State): (b: seq<bool>)
    ensures |b| == |s.procs|
  {
    seq(|s.procs|, i requires 0 <= i < |s.procs| => !s.procs[i].Unstarted?)
  }

  function All(n: nat): (b: seq<bool>)
    ensures |b| == n
  {
    seq(n, _ => true)
  }

  lemma {:induction false} SumAboveMonotone(c: Config, a: seq<bool>, k: nat, n: nat)
    requires k <= |c.nodes| == |a| && n <= |c.nodes|
    ensures SumAbove(c, a, k, n) <= SumAbove(c, All(|c.nodes|), k, n)
  {
    if k > 0 { SumAboveMonotone(c, a, k - 1, n); }
  }

  lemma {:induction false} SumAboveStart(c: Config, a: seq<bool>, i: nat, k: nat, n: nat)
    requires k <= |c.nodes| == |a| && n <= |c.nodes| && i < |a| && !a[i]
    ensures SumAbove(c, a[i := true], k, n) == SumAbove(c, a, k, n) + if i < k then CountAbove(c, i, n) else 0
  {
    if k > 0 { SumAboveStart(c, a, i, k - 1, n); }
  }

  /** Of the first `k` processes, those below node `n`. */
  function CountBelow(c: Config, n: nat, k: nat): nat
    requires n < |c.nodes| && k <= |c.nodes|
  {
    if k == 0 then 0 else CountBelow(c, n, k - 1) + if c.nodes[n].id <= c.nodes[k - 1].id then 0 else 1
  }

  lemma {:induction false} SumAboveColumn(c: Config, k: nat, n: nat)
    requires k <= |c.nodes| && n < |c.nodes|
    ensures SumAbove(c, All(|c.nodes|), k, n + 1) == SumAbove(c, All(|c.nodes|), k, n) + CountBelow(c, n, k)
  {
    if k > 0 { SumAboveColumn(c, k - 1, n); }
  }

  lemma {:induction false} AboveOrBelow(c: Config, n: nat, k: nat)
    requires k <= n < |c.nodes|
    ensures CountBelow(c, n, k) + CountAbove(c, n, k) <= k
    ensures Proper(c.nodes) ==> CountBelow(c, n, k) + CountAbove(c, n, k) == k
  {
    if k > 0 { AboveOrBelow(c, n, k - 1); }
  }

  lemma NextPairs(n: int)
    ensures n * (n - 1) == (n - 1) * (n - 2) + 2 * (n - 1)
  {}

  /** Every pair of nodes is challenged at most once, from below, and exactly once if ids are distinct. */
  lemma {:induction false} PairsOnce(c: Config, n: nat)
    requires n <= |c.nodes|
    ensures 2 * SumAbove(c, All(|c.nodes|), n, n) <= n * (n - 1)
    ensures Proper(c.nodes) ==> 2 * SumAbove(c, All(|c.nodes|), n, n) == n * (n - 1)
  {
    if n > 0 {
      PairsOnce(c, n - 1);
      SumAboveColumn(c, n - 1, n - 1);
      AboveOrBelow(c, n - 1, n - 1);
      NextPairs(n);
    }
  }

  /** How many of the first `n` listed nodes have another id than node `i`. */
  function CountOthers(c: Config, i: nat, n: nat): nat
    requires i < |c.nodes| && n <= |c.nodes|
  {
    if n == 0 then 0 else CountOthers(c, i, n - 1) + if c.nodes[n - 1].id == c.nodes[i].id then 0 else 1
  }

  lemma {:induction false} OthersBound(c: Config, i: nat, m: nat, n: nat)
    requires i < |c.nodes| && m <= n <= |c.nodes|
    ensures CountOthers(c, i, m) <= CountOthers(c, i, n) <= n - if i < n then 1 else 0
    ensures Proper(c.nodes) ==> CountOthers(c, i, n) == n - if i < n then 1 else 0
    decreases n
  {
    if n > 0 { OthersBound(c, i, if m < n then m else n - 1, n - 1); }
  }

  /** COORDINATOR messages a process has sent. */
  function Calls(c: Config, i: nat, p: Proc): nat
    requires i < |c.nodes| && (p.Declaring? ==> p.next <= |c.nodes|)
  {
    match p
    case Declaring(next, awaiting) => CountOthers(c, i, next) + if awaiting then 1 else 0
    case Won => CountOthers(c, i, |c.nodes|)
    case _ => 0
  }

  function SumCalls(c: Config, procs: seq<Proc>, k: nat): nat
    requires k <= |procs| == |c.nodes|
    requires forall i | 0 <= i < |procs| :: procs[i].Declaring? ==> procs[i].next <= |c.nodes|
  {
    if k == 0 then 0 else SumCalls(c, procs, k - 1) + Calls(c, k - 1, procs[k - 1])
  }

  lemma {:induction false} SumCallsUpdate(c: Config, procs: seq<Proc>, i: nat, p: Proc, k: nat)
    requires k <= |procs| == |c.nodes| && i < |procs| && (p.Declaring? ==> p.next <= |c.nodes|)
    requires forall j | 0 <= j < |procs| :: procs[j].Declaring? ==> procs[j].next <= |c.nodes|
    ensures SumCalls(c, procs[i := p], k)
      == SumCalls(c, procs, k) + if i < k then Calls(c, i, p) - Calls(c, i, procs[i]) else 0
  {
    hide Calls;
    if k > 0 { SumCallsUpdate(c, procs, i, p, k - 1); }
  }

  predicate Patient(c: Config, procs: seq<Proc>)
    requires |procs| == |c.nodes|
  {
    forall i | 0 <= i < |procs| && procs[i].Declaring? ::
      && procs[i].next <= |c.nodes|
      && (procs[i].awaiting ==> procs[i].next < |c.nodes| && c.nodes[procs[i].next].id != c.nodes[i].id)
  }

  lemma OneMore(k: int, n: int)
    ensures (k + 1) * n == k * n + n
  {}

  /** Nobody calls more than all the others. */
  lemma {:induction false} SumCallsBound(c: Config, procs: seq<Proc>, k: nat)
    requires k <= |procs| == |c.nodes| && Patient(c, procs)
    ensures SumCalls(c, procs, k) <= k * (|c.nodes| - 1)
  {
    if k > 0 {
      SumCallsBound(c, procs, k - 1);
      var p := procs[k - 1];
      if p.Declaring? { OthersBound(c, k - 1, if p.awaiting then p.next + 1 else p.next, |c.nodes|); }
      OthersBound(c, k - 1, 0, |c.nodes|);
      OneMore(k - 1, |c.nodes| - 1);
    }
  }

  function Winners(procs: seq<Proc>, k: nat): nat
    requires k <= |procs|
  {
    if k == 0 then 0 else Winners(procs, k - 1) + if procs[k - 1].Won? then 1 else 0
  }

  lemma {:induction false} SettledCalls(c: Config, procs: seq<Proc>, k: nat)
    requires Proper(c.nodes) && k <= |procs| == |c.nodes|
    requires forall i | 0 <= i < |procs| :: procs[i].Passive? || procs[i].Won?
    ensures SumCalls(c, procs, k) == Winners(procs, k) * (|c.nodes| - 1)
  {
    if k > 0 {
      SettledCalls(c, procs, k - 1);
      OthersBound(c, k - 1, 0, |c.nodes|);
      OneMore(Winners(procs, k - 1), |c.nodes| - 1);
    }
  }

  lemma {:induction false} OneCaller(c: Config, procs: seq<Proc>, w: nat, k: nat)
    requires k <= |procs| == |c.nodes| && Patient(c, procs) && w < |procs|
    requires forall i | 0 <= i < |procs| && i != w :: !Victorious(procs[i])
    ensures SumCalls(c, procs, k) == if w < k then Calls(c, w, procs[w]) else 0
  {
    if k > 0 { OneCaller(c, procs, w, k - 1); }
  }

  lemma {:induction false} WinnersAtLeast(procs: seq<Proc>, w: nat, k: nat)
    requires w < k <= |procs| && procs[w].Won?
    ensures Winners(procs, k) >= 1
  {
    if w < k - 1 { WinnersAtLeast(procs, w, k - 1); }
  }

  ghost predicate Counts(c: Config, s: State)
    requires Shape(c, s)
  {
    && s.elections == SumAbove(c, Started(s), |c.nodes|, |c.nodes|)
    && s.coordinators == SumCalls(c, s.procs, |c.nodes|)
  }

  lemma StartCounts(c: Config, s: State, i: nat)
    requires Shape(c, s) && Counts(c, s) && i < |s.procs|
    ensures Shape(c, StartElection(c, s, i)) && Counts(c, StartElection(c, s, i))
  {
    var t := StartElection(c, s, i);
    ShapeStart(c, s, i);
    if s.procs[i].Unstarted? {
      ChallengesCount(c, i, s.now, |c.nodes|);
      SumAboveStart(c, Started(s), i, |c.nodes|, |c.nodes|);
      assert Started(t) == Started(s)[i := true];
      SumCallsUpdate(c, s.procs, i, Waiting(s.now, false), |c.nodes|);
    }
  }

  /** A step of one started process, with the calls it sends. */
  lemma ProcCounts(c: Config, s: State, t: State, i: nat, p: Proc)
    requires Shape(c, s) && Shape(c, t) && Counts(c, s) && i < |s.procs| && (p.Declaring? ==> p.next <= |c.nodes|)
    requires t.procs == s.procs[i := p] && (p.Unstarted? <==> s.procs[i].Unstarted?) && t.elections == s.elections
    requires t.coordinators == s.coordinators + Calls(c, i, p) - Calls(c, i, s.procs[i])
    ensures Counts(c, t)
  {
    hide Calls;
    assert Started(t) == Started(s);
    SumCallsUpdate(c, s.procs, i, p, |c.nodes|);
  }

  lemma ReceiveCounts(c: Config, s: State, k: nat)
    requires Slow(c, s) && Counts(c, s) && k < |s.msgs|
    ensures Shape(c, Next(c, s, Receive(k))) && Counts(c, Next(c, s, Receive(k)))
  {
    hide SumAbove, SumCalls, Challenges;
    var m := s.msgs[k];
    assert m in s.msgs;
    Removed(s.msgs, k);
    ShapeStep(c, s, Receive(k));
    var t := Next(c, s, Receive(k));
    match m.kind {
      case Election =>
        var u := s.(msgs := s.msgs[..k] + s.msgs[k + 1..] + [Msg(Alive, m.to, m.from, s.now)]);
        assert Started(u) == Started(s);
        StartCounts(c, u, m.to);
      case Coordinator =>
        assert Started(t) == Started(s);
      case _ =>
        assert SlowProc(c, s, m.to);
        assert t.procs == s.procs[m.to := t.procs[m.to]];
        ProcCounts(c, s, t, m.to, t.procs[m.to]);
    }
  }

  lemma CountsStep(c: Config, s: State, step: Step)
    requires Slow(c, s) && Counts(c, s) && Enabled(c, s, step)
    ensures Slow(c, Next(c, s, step)) && Counts(c, Next(c, s, step))
  {
    hide SumAbove, Challenges, SumCalls, SlowProc;
    var t := Next(c, s, step);
    ShapeStep(c, s, step);
    match step {
      case Detect(i) => SlowStart(c, s, i); StartCounts(c, s, i);
      case Receive(k) => SlowReceive(c, s, k); ReceiveCounts(c, s, k);
      case Tick => SlowStep(c, s, step); assert Started(t) == Started(s);
      case Hear(i) => SlowStep(c, s, step); ProcCounts(c, s, t, i, t.procs[i]);
      case TimeOut(i) => SlowStep(c, s, step); ProcCounts(c, s, t, i, t.procs[i]);
      case Declare(i) => SlowStep(c, s, step); DeclareCounts(c, s, i);
    }
  }

  lemma DeclareCounts(c: Config, s: State, i: nat)
    requires Shape(c, s) && Counts(c, s) && Enabled(c, s, Declare(i)) && Shape(c, Next(c, s, Declare(i)))
    ensures Counts(c, Next(c, s, Declare(i)))
  {
    var t := Next(c, s, Declare(i));
    assert t.procs == s.procs[i := t.procs[i]];
    ProcCounts(c, s, t, i, t.procs[i]);
  }

  lemma {:induction false} CountsRun(c: Config, s: State, steps: seq<Step>)
    requires Slow(c, s) && Counts(c, s) && Run(c, s, steps).Some?
    ensures Slow(c, Run(c, s, steps).value) && Counts(c, Run(c, s, steps).value)
    decreases |steps|
  {
    hide Counts, Slow, Shape;
    if steps != [] {
      CountsStep(c, s, steps[0]);
      CountsRun(c, Next(c, s, steps[0]), steps[1..]);
    }
  }

  lemma {:induction false} NobodyStarted(c: Config, procs: seq<Proc>, started: seq<bool>, k: nat)
    requires k <= |c.nodes| == |started| == |procs|
    requires forall i | 0 <= i < |procs| :: !started[i] && procs[i].Unstarted?
    ensures SumAbove(c, started, k, |c.nodes|) == 0 && SumCalls(c, procs, k) == 0
  {
    if k > 0 { NobodyStarted(c, procs, started, k - 1); }
  }

  lemma CountsReached(c: Config, primary: string, steps: seq<Step>)
    requires Run(c, Init(c, primary), steps).Some?
    ensures Slow(c, Run(c, Init(c, primary), steps).value) && Counts(c, Run(c, Init(c, primary), steps).value)
  {
    var s := Init(c, primary);
    NobodyStarted(c, s.procs, Started(s), |c.nodes|);
    CountsRun(c, s, steps);
  }

  /** On any network an election ends with everybody settled, and the largest ids among the winners. */
  lemma SlowElectionSettles(c: Config, s: State)
    requires Slow(c, s) && Finished(c, s)
    ensures s.msgs == [] && forall i | 0 <= i < |s.procs| :: s.procs[i].Passive? || s.procs[i].Won?
    ensures forall i | 0 <= i < |s.procs| && Top(c, i) :: s.procs[i].Won?
  {
    assert !Enabled(c, s, Receive(0)) && !Enabled(c, s, Tick);
    forall i | 0 <= i < |s.procs|
      ensures s.procs[i].Passive? || s.procs[i].Won?
      ensures Top(c, i) ==> s.procs[i].Won?
    {
      assert !Enabled(c, s, Detect(i)) && !Enabled(c, s, Hear(i)) && !Enabled(c, s, TimeOut(i));
      assert !Enabled(c, s, Declare(i)) && !Running(c, s.procs[i], s.now);
      assert SlowProc(c, s, i);
    }
  }

  /**
   * What an election among n nodes costs on any network: at most n (n - 1) / 2 ELECTION and n (n - 1)
   * COORDINATOR messages; with distinct ids, once finished, exactly n (n - 1) / 2, and n - 1 for each of
   * its winners, of which there is at least one.
   */
  lemma ElectionCost(c: Config, primary: string, steps: seq<Step>)
    requires Run(c, Init(c, primary), steps).Some?
    ensures var s := Run(c, Init(c, primary), steps).value;
      var n := |c.nodes|;
      && 2 * s.elections <= n * (n - 1) && s.coordinators <= n * (n - 1)
      && (Finished(c, s) && Proper(c.nodes) ==>
        && |s.procs| == n && Winners(s.procs, n) >= 1
        && 2 * s.elections == n * (n - 1) && s.coordinators == Winners(s.procs, n) * (n - 1))
  {
    var s := Run(c, Init(c, primary), steps).value;
    CountsReached(c, primary, steps);
    SumAboveMonotone(c, Started(s), |c.nodes|, |c.nodes|);
    PairsOnce(c, |c.nodes|);
    SlowIsPatient(c, s);
    SumCallsBound(c, s.procs, |c.nodes|);
    if Finished(c, s) && Proper(c.nodes) {
      SlowElectionSettles(c, s);
      assert Started(s) == All(|c.nodes|);
      SettledCalls(c, s.procs, |c.nodes|);
      var w := SomeTop(c, |c.nodes|);
      WinnersAtLeast(s.procs, w, |c.nodes|);
    }
  }

  lemma SlowIsPatient(c: Config, s: State)
    requires Slow(c, s)
    ensures Patient(c, s.procs)
  {
    forall i | 0 <= i < |s.procs| && s.procs[i].Declaring?
      ensures s.procs[i].awaiting ==>
        s.procs[i].next < |c.nodes| && c.nodes[s.procs[i].next].id != c.nodes[i].id
    {
      assert SlowProc(c, s, i);
    }
  }

  /** With a timeout of more than two delays there are at most n - 1 COORDINATOR messages, and that many in the end. */
  lemma FastElectionCost(c: Config, primary: string, steps: seq<Step>)
    requires Valid(c) && primary != SELF_WIN_IP && Run(c, Init(c, primary), steps).Some?
    ensures var s := Run(c, Init(c, primary), steps).value;
      s.coordinators <= |c.nodes| - 1 && (Finished(c, s) ==> s.coordinators == |c.nodes| - 1)
  {
    hide SumCalls, SumAbove, Run;
    var s := Run(c, Init(c, primary), steps).value;
    CountsReached(c, primary, steps);
    SlowIsPatient(c, s);
    OnlyTheTopDeclaresVictory(c, primary, steps);
    var w := SomeTop(c, |c.nodes|);
    forall i | 0 <= i < |s.procs| && i != w
      ensures !Victorious(s.procs[i])
    {
      if Top(c, i) { TopIsUnique(c, i, w); }
    }
    OneCaller(c, s.procs, w, |c.nodes|);
    OthersBound(c, w, 0, |c.nodes|);
    var p := s.procs[w];
    if p.Declaring? { OthersBound(c, w, if p.awaiting then p.next + 1 else p.next, |c.nodes|); }
    if Finished(c, s) { SlowElectionSettles(c, s); }
  }

  // ---- putting runs together ----

  function Ticks(k: nat): (steps: seq<Step>)
    ensures |steps| == k
  {
    seq(k, _ => Tick)
  }

  lemma {:induction false} RunConcat(c: Config, s: State, a: seq<Step>, b: seq<Step>)
    requires Run(c, s, a).Some?
    ensures Run(c, s, a + b) == Run(c, Run(c, s, a).value, b)
    decreases |a|
  {
    if a == [] {
      assert a + b == b;
    } else {
      assert (a + b)[1..] == a[1..] + b;
      RunConcat(c, Next(c, s, a[0]), a[1..], b);
    }
  }

  lemma RunOne(c: Config, s: State, step: Step)
    requires Shape(c, s) && Enabled(c, s, step)
    ensures Run(c, s, [step]) == Some(Next(c, s, step))
  {
    assert [step][1..] == [];
    assert Run(c, Next(c, s, step), []) == Some(Next(c, s, step));
  }

  lemma RunNothing(c: Config, s: State)
    ensures Run(c, s, []) == Some(s)
  {}

  lemma RunSnoc(c: Config, s: State, steps: seq<Step>, step: Step)
    requires Run(c, s, steps).Some? && Shape(c, Run(c, s, steps).value) && Enabled(c, Run(c, s, steps).value, step)
    ensures Run(c, s, steps + [step]) == Some(Next(c, Run(c, s, steps).value, step))
  {
    hide Shape, Enabled, Next;
    RunOne(c, Run(c, s, steps).value, step);
    RunConcat(c, s, steps, [step]);
  }

  predicate InTimeFor(c: Config, s: State, k: nat) {
    forall m | m in s.msgs :: s.now + k <= m.sentAt + c.delay
  }

  /** Time may pass up to the earliest deadline while a message is on its way or some timer `i` is running. */
  lemma {:induction false} LetTimePass(c: Config, s: State, i: nat, k: nat)
    requires Shape(c, s) && InTimeFor(c, s, k)
    requires s.msgs != []
      || (i < |s.procs| && s.procs[i].Waiting? && s.now + k <= s.procs[i].start + c.timeout)
    ensures Run(c, s, Ticks(k)) == Some(s.(now := s.now + k))
    decreases k
  {
    if k > 0 {
      assert s.msgs == [] ==> Running(c, s.procs[i], s.now);
      var t := Next(c, s, Tick);
      assert Ticks(k)[1..] == Ticks(k - 1);
      LetTimePass(c, t, i, k - 1);
    }
  }

  predicate AllSentAt(msgs: seq<Msg>, time: nat) {
    forall m | m in msgs :: m.sentAt == time
  }

  /** What the first `k` processes that have not noticed yet change by noticing now. */
  ghost predicate Noticed(c: Config, s: State, t: State, k: nat) {
    && Shape(c, t) && t.now == s.now && |t.procs| == |s.procs|
    && (forall i | 0 <= i < |s.procs| ::
          t.procs[i] == if i < k && s.procs[i].Unstarted? then Waiting(s.now, false) else s.procs[i])
    && (forall m | m in t.msgs :: m in s.msgs || (m.kind.Election? && m.sentAt == s.now))
    && (forall i: nat, j: nat | i < k && i < |s.procs| && s.procs[i].Unstarted? && Above(c, j, i) ::
          Msg(Election.Election, i, j, s.now) in t.msgs)
  }

  lemma NoticesToo(c: Config, s: State, t: State, k: nat)
    requires k < |s.procs| && Noticed(c, s, t, k) && t.procs[k].Unstarted?
    ensures Enabled(c, t, Detect(k)) && Noticed(c, s, Next(c, t, Detect(k)), k + 1)
  {
    ChallengesAre(c, k, t.now, |c.nodes|);
    ShapeStep(c, t, Detect(k));
  }

  /** All of the first `k` processes that have not noticed the death of the primary do so now. */
  lemma {:induction false} NoticeAll(c: Config, s: State, k: nat) returns (steps: seq<Step>)
    requires Shape(c, s) && k <= |s.procs|
    ensures (forall step | step in steps :: step.Detect?) && Run(c, s, steps).Some?
    ensures Noticed(c, s, Run(c, s, steps).value, k)
  {
    hide Run, Enabled, Next;
    RunNothing(c, s);
    if k == 0 {
      steps := [];
    } else {
      steps := NoticeAll(c, s, k - 1);
      var t := Run(c, s, steps).value;
      if t.procs[k - 1].Unstarted? {
        NoticesToo(c, s, t, k - 1);
        RunSnoc(c, s, steps, Detect(k - 1));
        steps := steps + [Detect(k - 1)];
      }
    }
  }

  // ---- a network so slow that everybody wins ----

  /** The first `k` processes are in state `p`, the others in state `q`. */
  predicate Split(procs: seq<Proc>, k: nat, p: Proc, q: Proc) {
    forall i | 0 <= i < |procs| :: procs[i] == if i < k then p else q
  }

  predicate AllWaiting(s: State) {
    Split(s.procs, |s.procs|, Waiting(0, false), Won)
  }

  /** The first `k` messages are challenges, and the others have just been sent. */
  predicate StillToAnswer(s: State, k: nat) {
    && k <= |s.msgs| && (forall i | 0 <= i < k :: s.msgs[i].kind.Election?)
    && forall i | k <= i < |s.msgs| :: s.msgs[i].sentAt == s.now
  }

  lemma AnswerOne(c: Config, s: State, k: nat)
    requires Shape(c, s) && AllWaiting(s) && k > 0 && StillToAnswer(s, k)
    ensures Enabled(c, s, Receive(0))
    ensures var t := Next(c, s, Receive(0));
      && Shape(c, t) && AllWaiting(t) && t.now == s.now && StillToAnswer(t, k - 1) && t.msgs != []
  {
    ShapeStep(c, s, Receive(0));
    var m := s.msgs[0];
    assert m in s.msgs;
    var t := Next(c, s, Receive(0));
    assert t.msgs == s.msgs[..0] + s.msgs[1..] + [Msg(Alive, m.to, m.from, s.now)];
  }

  /** Every challenge is answered, all at one moment. */
  lemma {:induction false} AnswerAll(c: Config, s: State, k: nat) returns (steps: seq<Step>)
    requires Shape(c, s) && AllWaiting(s) && StillToAnswer(s, k)
    ensures Run(c, s, steps).Some?
    ensures var t := Run(c, s, steps).value;
      && Shape(c, t) && AllWaiting(t) && t.now == s.now && AllSentAt(t.msgs, s.now) && (s.msgs == [] || t.msgs != [])
    decreases k
  {
    hide Enabled, Next, Run;
    if k == 0 {
      steps := [];
      RunNothing(c, s);
    } else {
      AnswerOne(c, s, k);
      RunOne(c, s, Receive(0));
      var rest := AnswerAll(c, Next(c, s, Receive(0)), k - 1);
      RunConcat(c, s, [Receive(0)], rest);
      steps := [Receive(0)] + rest;
    }
  }

  lemma {:induction false} TimeOutAll(c: Config, s: State, k: nat) returns (steps: seq<Step>)
    requires Shape(c, s) && k <= |s.procs| && s.now >= c.timeout && AllWaiting(s)
    ensures Run(c, s, steps).Some?
    ensures var t := Run(c, s, steps).value;
      Shape(c, t) && t.now == s.now && Split(t.procs, k, Declaring(0, false), Waiting(0, false))
  {
    if k == 0 {
      steps := [];
    } else {
      steps := TimeOutAll(c, s, k - 1);
      var t := Run(c, s, steps).value;
      ShapeStep(c, t, TimeOut(k - 1));
      RunSnoc(c, s, steps, TimeOut(k - 1));
      steps := steps + [TimeOut(k - 1)];
    }
  }

  /** Nobody takes a victory back. */
  lemma {:induction false} VictoryStays(c: Config, s: State, steps: seq<Step>, i: nat)
    requires Shape(c, s) && Run(c, s, steps).Some? && i < |s.procs| && Victorious(s.procs[i])
    ensures i < |Run(c, s, steps).value.procs| && Victorious(Run(c, s, steps).value.procs[i])
    decreases |steps|
  {
    if steps != [] {
      var t := Next(c, s, steps[0]);
      ShapeStep(c, s, steps[0]);
      VictoryStays(c, t, steps[1..], i);
    }
  }

  lemma {:induction false} EverybodyWon(procs: seq<Proc>, k: nat)
    requires k <= |procs| && forall i | 0 <= i < |procs| :: procs[i].Won?
    ensures Winners(procs, k) == k
  {
    if k > 0 { EverybodyWon(procs, k - 1); }
  }

  lemma InitNoticed(c: Config, primary: string, t: State)
    requires Noticed(c, Init(c, primary), t, |c.nodes|)
    ensures AllWaiting(t) && t.now == 0 && AllSentAt(t.msgs, 0) && StillToAnswer(t, |t.msgs|)
  {
    forall i | 0 <= i < |t.msgs|
      ensures t.msgs[i].kind.Election? && t.msgs[i].sentAt == 0
    {
      assert t.msgs[i] in t.msgs;
    }
  }

  /**
   * All start at once; every challenge takes `delay` units to be answered, if there is that much time; and
   * the answers are still on their way when the time of all candidates is up.
   */
  lemma NobodyHearsInTime(c: Config, primary: string) returns (steps: seq<Step>)
    requires c.nodes != [] && c.timeout <= 2 * c.delay
    ensures Run(c, Init(c, primary), steps).Some?
    ensures var s := Run(c, Init(c, primary), steps).value;
      Shape(c, s) && s.now == c.timeout && AllWaiting(s)
  {
    hide Run, Noticed;
    var s0 := Init(c, primary);
    steps := NoticeAll(c, s0, |c.nodes|);
    var s1 := Run(c, s0, steps).value;
    NoticedIsShaped(c, s0, s1, |c.nodes|);
    InitNoticed(c, primary, s1);
    if c.timeout <= c.delay {
      LetTimePass(c, s1, 0, c.timeout);
      RunConcat(c, s0, steps, Ticks(c.timeout));
      steps := steps + Ticks(c.timeout);
    } else {
      LetTimePass(c, s1, 0, c.delay);
      RunConcat(c, s0, steps, Ticks(c.delay));
      var s2 := s1.(now := c.delay);
      var answers := AnswerAll(c, s2, |s2.msgs|);
      RunConcat(c, s0, steps + Ticks(c.delay), answers);
      var s3 := Run(c, s2, answers).value;
      LetTimePass(c, s3, 0, c.timeout - c.delay);
      RunConcat(c, s0, steps + Ticks(c.delay) + answers, Ticks(c.timeout - c.delay));
      steps := steps + Ticks(c.delay) + answers + Ticks(c.timeout - c.delay);
    }
  }

  lemma NoticedIsShaped(c: Config, s: State, t: State, k: nat)
    requires Noticed(c, s, t, k)
    ensures Shape(c, t)
  {}

  /**
   * With a timeout of two delays or less, in an election among any nodes with distinct ids, every single
   * one of them can end up its own primary; this costs all the COORDINATOR messages there can be.
   */
  lemma SlowNetworkElectsEverybody(c: Config, primary: string) returns (steps: seq<Step>)
    requires Proper(c.nodes) && c.timeout <= 2 * c.delay
    ensures Run(c, Init(c, primary), steps).Some? && Finished(c, Run(c, Init(c, primary), steps).value)
    ensures var s := Run(c, Init(c, primary), steps).value;
      && |s.procs| == |c.nodes| && (forall i | 0 <= i < |s.procs| :: s.procs[i].Won?)
      && s.coordinators == |c.nodes| * (|c.nodes| - 1)
  {
    hide Run, Enabled, Finished;
    var n, s0 := |c.nodes|, Init(c, primary);
    var a := NobodyHearsInTime(c, primary);
    var s2 := Run(c, s0, a).value;
    var b := TimeOutAll(c, s2, n);
    RunConcat(c, s0, a, b);
    var s3 := Run(c, s2, b).value;
    var d := EveryElectionFinishes(c, s3);
    RunConcat(c, s0, a + b, d);
    steps := a + b + d;
    CountsReached(c, primary, steps);
    var s := Run(c, s0, steps).value;
    SlowElectionSettles(c, s);
    forall i | 0 <= i < |s.procs|
      ensures s.procs[i].Won?
    {
      VictoryStays(c, s3, d, i);
    }
    EverybodyWon(s.procs, n);
    ElectionCost(c, primary, steps);
  }

  // ---- the timeout must exceed two delays ----

  ghost predicate TopOnly(c: Config, s: State) {
    forall i | 0 <= i < |s.procs| && Victorious(s.procs[i]) :: Top(c, i)
  }

  /** In every run of this election only the largest id declares victory. */
  ghost predicate Safe(c: Config) {
    forall primary: string, steps: seq<Step>
      | primary != SELF_WIN_IP && Run(c, Init(c, primary), steps).Some?
      :: TopOnly(c, Run(c, Init(c, primary), steps).value)
  }

  /** The condition on the timeout is exact, for every list of two or more nodes; a single node cannot go wrong. */
  lemma TimeoutConditionIsExact(c: Config)
    requires Proper(c.nodes)
    ensures Safe(c) <==> 2 * c.delay < c.timeout || |c.nodes| == 1
  {
    hide Run;
    if 2 * c.delay < c.timeout || |c.nodes| == 1 {
      forall primary: string, steps: seq<Step>
        | primary != SELF_WIN_IP && Run(c, Init(c, primary), steps).Some?
        ensures TopOnly(c, Run(c, Init(c, primary), steps).value)
      {
        if 2 * c.delay < c.timeout {
          OnlyTheTopDeclaresVictory(c, primary, steps);
        } else {
          ShapeRun(c, Init(c, primary), steps);
        }
      }
    } else {
      assert "" != SELF_WIN_IP;
      var steps := SlowNetworkElectsEverybody(c, "");
      var s := Run(c, Init(c, ""), steps).value;
      assert Victorious(s.procs[0]) && Victorious(s.procs[1]);
      assert c.nodes[0].id != c.nodes[1].id;
      assert !(Top(c, 0) && Top(c, 1));
      assert !TopOnly(c, s);
    }
  }
}
