/**
 * When a challenge can still be answered.  A node that has taken a COORDINATOR, or has won, stops
 * listening on its election socket (server/src/main.cpp); a challenge that arrives later ends the
 * process of the challenger.  Challenges are safe exactly when every backup notices the death of the
 * primary early enough.
 */
module ElectionReach {
  import opened Election
  import opened ElectionBounds

  predicate SomeUnstarted(s: State) {
    exists i | 0 <= i < |s.procs| :: s.procs[i].Unstarted?
  }

  /** Every backup has noticed, or been challenged, within `spread` units of the first moment it could. */
  ghost predicate OnTime(c: Config, s: State, steps: seq<Step>, spread: nat)
    decreases |steps|
  {
    steps == [] || (Shape(c, s) && Enabled(c, s, steps[0]) ==>
      && (steps[0].Tick? && s.now >= spread ==> !SomeUnstarted(s))
      && OnTime(c, Next(c, s, steps[0]), steps[1..], spread))
  }

  predicate SomeVictorious(s: State) {
    exists i | 0 <= i < |s.procs| :: Victorious(s.procs[i])
  }

  /** Once somebody has declared victory no challenge is on its way and none will ever be made. */
  predicate ChallengesOver(s: State) {
    SomeVictorious(s) ==> !SomeUnstarted(s) && forall m | m in s.msgs :: !m.kind.Election?
  }

  ghost predicate Early(c: Config, s: State, spread: nat) {
    && Shape(c, s)
    && (SomeUnstarted(s) ==> s.now <= spread)
    && (forall m | m in s.msgs :: s.now <= m.sentAt + c.delay && (m.kind.Election? ==> m.sentAt <= spread))
    && (SomeVictorious(s) ==> s.now >= c.timeout)
  }

  lemma EarlyStart(c: Config, s: State, i: nat, spread: nat)
    requires Early(c, s, spread) && i < |s.procs|
    ensures Early(c, StartElection(c, s, i), spread)
  {
    var t := StartElection(c, s, i);
    ShapeStart(c, s, i);
    if s.procs[i].Unstarted? {
      ChallengesAre(c, i, s.now, |c.nodes|);
      assert SomeUnstarted(s);
      forall k | 0 <= k < |t.procs|
        ensures t.procs[k].Unstarted? || Victorious(t.procs[k]) ==> t.procs[k] == s.procs[k]
      {}
    }
  }

  lemma UnstartedBefore(s: State, t: State)
    requires |t.procs| == |s.procs| && forall i | 0 <= i < |t.procs| :: t.procs[i].Unstarted? ==> s.procs[i].Unstarted?
    ensures SomeUnstarted(t) ==> SomeUnstarted(s)
  {}

  lemma VictoriousBefore(s: State, t: State)
    requires |t.procs| == |s.procs|
    requires forall i | 0 <= i < |t.procs| :: Victorious(t.procs[i]) ==> Victorious(s.procs[i])
    ensures SomeVictorious(t) ==> SomeVictorious(s)
  {}

  /** Nothing but challenges and the clock can make it late. */
  lemma EarlyFrom(c: Config, s: State, t: State, spread: nat)
    requires Early(c, s, spread) && Shape(c, t) && t.now == s.now && |t.procs| == |s.procs|
    requires forall i | 0 <= i < |t.procs| :: t.procs[i].Unstarted? ==> s.procs[i].Unstarted?
    requires forall i | 0 <= i < |t.procs| :: Victorious(t.procs[i]) ==> Victorious(s.procs[i])
    requires forall m | m in t.msgs :: m in s.msgs || (m.sentAt == s.now && !m.kind.Election?)
    ensures Early(c, t, spread)
  {
    UnstartedBefore(s, t);
    VictoriousBefore(s, t);
  }

  lemma EarlyReceive(c: Config, s: State, k: nat, spread: nat)
    requires Early(c, s, spread) && k < |s.msgs|
    ensures Early(c, Next(c, s, Receive(k)), spread)
  {
    hide Early, Challenges, Call;
    assert Shape(c, s) by {
      EarlyIsShaped(c, s, spread);
    }
    var m := s.msgs[k];
    assert m in s.msgs;
    Removed(s.msgs, k);
    ShapeStep(c, s, Receive(k));
    if m.kind.Election? {
      var u := s.(msgs := s.msgs[..k] + s.msgs[k + 1..] + [Msg(Alive, m.to, m.from, s.now)]);
      EarlyFrom(c, s, u, spread);
      EarlyStart(c, u, m.to, spread);
    } else {
      EarlyFrom(c, s, Next(c, s, Receive(k)), spread);
    }
  }

  lemma EarlyIsShaped(c: Config, s: State, spread: nat)
    requires Early(c, s, spread)
    ensures Shape(c, s)
  {}

  lemma EarlyStep(c: Config, s: State, step: Step, spread: nat)
    requires Early(c, s, spread) && Enabled(c, s, step)
    requires step.Tick? && s.now >= spread ==> !SomeUnstarted(s)
    ensures Early(c, Next(c, s, step), spread)
  {
    var t := Next(c, s, step);
    ShapeStep(c, s, step);
    match step {
      case Detect(i) => EarlyStart(c, s, i, spread);
      case Receive(k) => EarlyReceive(c, s, k, spread);
      case TimeOut(i) => UnstartedBefore(s, t);
      case Hear(i) => UnstartedBefore(s, t); VictoriousBefore(s, t);
      case Declare(i) => UnstartedBefore(s, t); VictoriousBefore(s, t);
      case Tick => UnstartedBefore(s, t); VictoriousBefore(s, t);
    }
  }

  lemma {:induction false} EarlyRun(c: Config, s: State, steps: seq<Step>, spread: nat)
    requires Early(c, s, spread) && Run(c, s, steps).Some? && OnTime(c, s, steps, spread)
    ensures Early(c, Run(c, s, steps).value, spread)
    decreases |steps|
  {
    hide Early, Next, Enabled;
    if steps != [] {
      EarlyStep(c, s, steps[0], spread);
      EarlyRun(c, Next(c, s, steps[0]), steps[1..], spread);
    }
  }

  /** If the last backup notices more than a delay before the timeout, challenges are over before any victory. */
  lemma ChallengesPrecedeVictory(c: Config, primary: string, steps: seq<Step>, spread: nat)
    requires spread + c.delay < c.timeout
    requires Run(c, Init(c, primary), steps).Some? && OnTime(c, Init(c, primary), steps, spread)
    ensures ChallengesOver(Run(c, Init(c, primary), steps).value)
  {
    EarlyRun(c, Init(c, primary), steps, spread);
  }

  // ---- the condition is exact ----

  lemma {:induction false} OnTimeConcat(c: Config, s: State, a: seq<Step>, b: seq<Step>, spread: nat)
    requires Run(c, s, a).Some? && OnTime(c, s, a, spread) && OnTime(c, Run(c, s, a).value, b, spread)
    ensures OnTime(c, s, a + b, spread)
    decreases |a|
  {
    if a == [] {
      assert a + b == b;
    } else {
      assert (a + b)[1..] == a[1..] + b;
      OnTimeConcat(c, Next(c, s, a[0]), a[1..], b, spread);
    }
  }

  lemma {:induction false} StartedIsOnTime(c: Config, s: State, steps: seq<Step>, spread: nat)
    requires Shape(c, s) && !SomeUnstarted(s)
    ensures OnTime(c, s, steps, spread)
    decreases |steps|
  {
    if steps != [] && Enabled(c, s, steps[0]) {
      ShapeStep(c, s, steps[0]);
      UnstartedBefore(s, Next(c, s, steps[0]));
      StartedIsOnTime(c, Next(c, s, steps[0]), steps[1..], spread);
    }
  }

  lemma {:induction false} TicksOnTime(c: Config, s: State, k: nat, spread: nat)
    requires Shape(c, s) && s.now + k <= spread
    ensures OnTime(c, s, Ticks(k), spread)
    decreases k
  {
    if k > 0 && Enabled(c, s, Tick) {
      assert Ticks(k)[1..] == Ticks(k - 1);
      TicksOnTime(c, Next(c, s, Tick), k - 1, spread);
    }
  }

  lemma {:induction false} NoTicksOnTime(c: Config, s: State, steps: seq<Step>, spread: nat)
    requires forall step | step in steps :: !step.Tick?
    ensures OnTime(c, s, steps, spread)
    decreases |steps|
  {
    if steps != [] && Shape(c, s) && Enabled(c, s, steps[0]) {
      assert steps[0] in steps && forall step | step in steps[1..] :: step in steps;
      NoTicksOnTime(c, Next(c, s, steps[0]), steps[1..], spread);
    }
  }

  /** What follows a stretch of a run, on time. */
  lemma Extend(c: Config, s: State, a: seq<Step>, b: seq<Step>, spread: nat)
    requires Run(c, s, a).Some? && OnTime(c, s, a, spread)
    requires Run(c, Run(c, s, a).value, b).Some? && OnTime(c, Run(c, s, a).value, b, spread)
    ensures Run(c, s, a + b) == Run(c, Run(c, s, a).value, b) && OnTime(c, s, a + b, spread)
  {
    RunConcat(c, s, a, b);
    OnTimeConcat(c, s, a, b, spread);
  }

  lemma {:induction false} NoneAbove(c: Config, w: nat, n: nat)
    requires Top(c, w) && n <= |c.nodes|
    ensures Challenges(c, w, 0, n) == []
  {
    if n > 0 { NoneAbove(c, w, n - 1); }
  }

  lemma TopStartsAlone(c: Config, primary: string, w: nat)
    requires Top(c, w)
    ensures Enabled(c, Init(c, primary), Detect(w))
    ensures var s := Next(c, Init(c, primary), Detect(w));
      && Shape(c, s) && s.now == 0 && s.msgs == [] && |s.procs| == |c.nodes|
      && forall i | 0 <= i < |s.procs| :: s.procs[i] == if i == w then Waiting(0, false) else Unstarted
  {
    ShapeStep(c, Init(c, primary), Detect(w));
    NoneAbove(c, w, |c.nodes|);
  }

  /** The node with the largest id starts at once and hears of nobody; all the others start `late` and challenge it. */
  lemma LateStart(c: Config, primary: string, w: nat, late: nat, spread: nat) returns (steps: seq<Step>)
    requires Proper(c.nodes) && Top(c, w) && late <= spread && late <= c.timeout <= late + c.delay
    ensures Run(c, Init(c, primary), steps).Some? && OnTime(c, Init(c, primary), steps, spread)
    ensures var s := Run(c, Init(c, primary), steps).value;
      && Shape(c, s) && |s.procs| == |c.nodes| && s.now == c.timeout && !SomeUnstarted(s)
      && s.procs[w] == Waiting(0, false)
      && forall i: nat | i < |c.nodes| && i != w :: Msg(Election.Election, i, w, late) in s.msgs
  {
    hide Run, OnTime, Challenges, Noticed;
    var s0 := Init(c, primary);
    TopStartsAlone(c, primary, w);
    var s1 := Next(c, s0, Detect(w));
    RunOne(c, s0, Detect(w));
    NoTicksOnTime(c, s0, [Detect(w)], spread);
    LetTimePass(c, s1, w, late);
    TicksOnTime(c, s1, late, spread);
    Extend(c, s0, [Detect(w)], Ticks(late), spread);
    var s2 := s1.(now := late);
    var notices := NoticeAll(c, s2, |c.nodes|);
    NoTicksOnTime(c, s2, notices, spread);
    Extend(c, s0, [Detect(w)] + Ticks(late), notices, spread);
    var s3 := Run(c, s2, notices).value;
    NoticedLate(c, s2, s3, w, late);
    LetTimePass(c, s3, w, c.timeout - late);
    StartedIsOnTime(c, s3, Ticks(c.timeout - late), spread);
    Extend(c, s0, [Detect(w)] + Ticks(late) + notices, Ticks(c.timeout - late), spread);
    steps := [Detect(w)] + Ticks(late) + notices + Ticks(c.timeout - late);
  }

  lemma NoticedLate(c: Config, s: State, t: State, w: nat, late: nat)
    requires Proper(c.nodes) && Top(c, w) && Noticed(c, s, t, |c.nodes|) && |s.procs| == |c.nodes|
    requires s.now == late && s.msgs == [] && late <= c.timeout <= late + c.delay
    requires forall i | 0 <= i < |s.procs| :: s.procs[i] == if i == w then Waiting(0, false) else Unstarted
    ensures Shape(c, t) && !SomeUnstarted(t) && t.procs[w] == Waiting(0, false) && t.now == late
    ensures InTimeFor(c, t, c.timeout - late)
    ensures forall i: nat | i < |c.nodes| && i != w :: Msg(Election.Election, i, w, late) in t.msgs
  {
    forall i: nat | i < |c.nodes| && i != w
      ensures Msg(Election.Election, i, w, late) in t.msgs
    {
      assert c.nodes[i].id != c.nodes[w].id && Above(c, w, i);
      assert s.procs[i].Unstarted?;
    }
  }

  /** One turn of the loop of declareVictory, with its answer, if there is one. */
  lemma TellOne(c: Config, s: State, w: nat, next: nat) returns (steps: seq<Step>)
    requires Shape(c, s) && w < |s.procs| && s.procs[w] == Declaring(next, false) && next < |c.nodes|
    ensures Run(c, s, steps).Some?
    ensures var t := Run(c, s, steps).value;
      Shape(c, t) && |t.procs| == |s.procs| && t.procs[w] == Declaring(next + 1, false) && t.msgs == s.msgs
  {
    hide Run;
    var n := |s.msgs|;
    ShapeStep(c, s, Declare(w));
    RunOne(c, s, Declare(w));
    steps := [Declare(w)];
    var s1 := Next(c, s, Declare(w));
    if c.nodes[next].id != c.nodes[w].id {
      assert s1.msgs == s.msgs + [Msg(Coordinator, w, next, s.now)];
      ShapeStep(c, s1, Receive(n));
      RunSnoc(c, s, steps, Receive(n));
      var s2 := Next(c, s1, Receive(n));
      assert s1.msgs[..n] + s1.msgs[n + 1..] == s.msgs;
      assert s2.msgs == s.msgs + [Msg(Ack, next, w, s.now)];
      ShapeStep(c, s2, Receive(n));
      RunSnoc(c, s, steps + [Receive(n)], Receive(n));
      assert s2.msgs[..n] + s2.msgs[n + 1..] == s.msgs;
      steps := steps + [Receive(n)] + [Receive(n)];
    }
  }

  lemma {:induction false} TellAll(c: Config, s: State, w: nat, next: nat) returns (steps: seq<Step>)
    requires Shape(c, s) && w < |s.procs| && s.procs[w] == Declaring(next, false) && next <= |c.nodes|
    ensures Run(c, s, steps).Some?
    ensures var t := Run(c, s, steps).value;
      Shape(c, t) && |t.procs| == |s.procs| && t.procs[w] == Declaring(|c.nodes|, false) && t.msgs == s.msgs
    decreases |c.nodes| - next
  {
    hide Run, Shape;
    if next == |c.nodes| {
      steps := [];
      RunNothing(c, s);
    } else {
      var first := TellOne(c, s, w, next);
      var rest := TellAll(c, Run(c, s, first).value, w, next + 1);
      RunConcat(c, s, first, rest);
      steps := first + rest;
    }
  }

  /** A candidate whose time is up tells everybody and stops listening while nothing else moves. */
  lemma WinsMeanwhile(c: Config, s: State, w: nat) returns (steps: seq<Step>)
    requires Shape(c, s) && w < |s.procs| && s.procs[w] == Waiting(0, false) && s.now >= c.timeout
    ensures Run(c, s, steps).Some?
    ensures var t := Run(c, s, steps).value;
      |t.procs| == |s.procs| && t.procs[w].Won? && t.msgs == s.msgs
  {
    hide Run, Shape;
    ShapeStep(c, s, TimeOut(w));
    RunOne(c, s, TimeOut(w));
    var s1 := Next(c, s, TimeOut(w));
    var tells := TellAll(c, s1, w, 0);
    RunConcat(c, s, [TimeOut(w)], tells);
    RunSnoc(c, s, [TimeOut(w)] + tells, Declare(w));
    steps := [TimeOut(w)] + tells + [Declare(w)];
  }

  /** A challenge of `i` to `w` is on its way. */
  ghost predicate Challenged(msgs: seq<Msg>, i: nat, w: nat) {
    exists m | m in msgs :: m.kind.Election? && m.from == i && m.to == w
  }

  /**
   * If the last backup may notice as late as a delay before the timeout, then in an election among any
   * two or more nodes challenges of all the others can reach the winner when it no longer listens.
   */
  lemma LateChallengeMeetsClosedNode(c: Config, primary: string, spread: nat)
    returns (steps: seq<Step>, w: nat)
    requires Proper(c.nodes) && c.timeout <= spread + c.delay
    ensures Run(c, Init(c, primary), steps).Some? && OnTime(c, Init(c, primary), steps, spread)
    ensures var s := Run(c, Init(c, primary), steps).value;
      && |s.procs| == |c.nodes| && w < |s.procs| && s.procs[w].Won?
      && forall i: nat | i < |c.nodes| && i != w :: Challenged(s.msgs, i, w)
  {
    hide Run, OnTime, Shape;
    var late := if spread <= c.timeout then spread else c.timeout;
    w := SomeTop(c, |c.nodes|);
    var a := LateStart(c, primary, w, late, spread);
    var s := Run(c, Init(c, primary), a).value;
    var b := WinsMeanwhile(c, s, w);
    StartedIsOnTime(c, s, b, spread);
    Extend(c, Init(c, primary), a, b, spread);
    steps := a + b;
    var t := Run(c, s, b).value;
    forall i: nat | i < |c.nodes| && i != w
      ensures Challenged(t.msgs, i, w)
    {
      assert Msg(Election.Election, i, w, late) in t.msgs;
    }
  }

  /** In every run of this election challenges are over before any victory. */
  ghost predicate AlwaysOver(c: Config, spread: nat) {
    forall primary: string, steps: seq<Step>
      | Run(c, Init(c, primary), steps).Some? && OnTime(c, Init(c, primary), steps, spread)
      :: ChallengesOver(Run(c, Init(c, primary), steps).value)
  }

  lemma AloneIsOver(c: Config, primary: string, steps: seq<Step>)
    requires |c.nodes| == 1 && Run(c, Init(c, primary), steps).Some?
    ensures ChallengesOver(Run(c, Init(c, primary), steps).value)
  {
    CountsReached(c, primary, steps);
    var s := Run(c, Init(c, primary), steps).value;
    forall m | m in s.msgs
      ensures !m.kind.Election?
    {
      assert SlowMsg(c, m);
    }
  }

  /**
   * For every list of two or more nodes: challenges are over before every victory, in all runs, exactly
   * when the last backup notices early enough.  A single node has nobody to challenge.
   */
  lemma NoticingInTimeIsExact(c: Config, spread: nat)
    requires Proper(c.nodes)
    ensures AlwaysOver(c, spread) <==> spread + c.delay < c.timeout || |c.nodes| == 1
  {
    hide OnTime, Run;
    if spread + c.delay < c.timeout || |c.nodes| == 1 {
      forall primary: string, steps: seq<Step>
        | Run(c, Init(c, primary), steps).Some? && OnTime(c, Init(c, primary), steps, spread)
        ensures ChallengesOver(Run(c, Init(c, primary), steps).value)
      {
        if spread + c.delay < c.timeout {
          ChallengesPrecedeVictory(c, primary, steps, spread);
        } else {
          AloneIsOver(c, primary, steps);
        }
      }
    } else {
      var steps, w := LateChallengeMeetsClosedNode(c, "", spread);
      var s := Run(c, Init(c, ""), steps).value;
      var other := if w == 0 then 1 else 0;
      assert Victorious(s.procs[w]) && SomeVictorious(s);
      assert Challenged(s.msgs, other, w);
      assert !ChallengesOver(s);
    }
  }
}
