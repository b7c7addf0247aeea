/**
 * How an election spreads (server/includes/backup/bullyElection.hpp): a challenge makes its receiver a
 * candidate too, so that one backup noticing the death of the primary is enough for the largest id to win.
 */
module ElectionSpread {
  import opened Election
  import opened ElectionBounds

  predicate Started(p: Proc) {
    !p.Unstarted?
  }

  /** Receiving a challenge is answered, and makes a candidate of whoever was none, which challenges all above it. */
  lemma ChallengeMakesACandidate(c: Config, s: State, k: nat)
    requires Shape(c, s) && k < |s.msgs| && s.msgs[k].kind.Election?
    ensures var m := s.msgs[k];
      var t := Next(c, s, Receive(k));
      && m.to < |s.procs| == |t.procs| && Msg(Alive, m.to, m.from, s.now) in t.msgs
      && t.procs[m.to] == (if Started(s.procs[m.to]) then s.procs[m.to] else Waiting(s.now, false))
      && (!Started(s.procs[m.to]) ==>
            forall j: nat | Above(c, j, m.to) :: Msg(Election.Election, m.to, j, s.now) in t.msgs)
  {
    var m := s.msgs[k];
    assert m in s.msgs;
    ShapeStep(c, s, Receive(k));
    ChallengesAre(c, m.to, s.now, |c.nodes|);
    var rest := s.msgs[..k] + s.msgs[k + 1..];
    var answer := Msg(Alive, m.to, m.from, s.now);
    assert (rest + [answer])[|rest|] == answer;
  }

  // ---- the invariant of the spread ----

  /** A challenge of `i` to `j` is on its way. */
  ghost predicate Challenging(s: State, i: nat, j: nat) {
    exists m | m in s.msgs :: m.kind.Election? && m.from == i && m.to == j
  }

  /** Whoever stands above a candidate is one too, or a challenge to it is on its way. */
  ghost predicate Spreads(c: Config, s: State)
    requires Shape(c, s)
  {
    forall i: nat, j: nat | i < |s.procs| && Started(s.procs[i]) && Above(c, j, i) ::
      Started(s.procs[j]) || Challenging(s, i, j)
  }

  /** All candidates are `first` or above it, and so are all that are challenged. */
  ghost predicate FromAbove(c: Config, s: State, first: nat)
    requires Shape(c, s)
  {
    && (forall i | 0 <= i < |s.procs| && Started(s.procs[i]) :: i == first || Above(c, i, first))
    && forall m | m in s.msgs && m.kind.Election? :: Above(c, m.to, first)
  }

  lemma SpreadsFrom(c: Config, s: State, t: State)
    requires Shape(c, s) && Shape(c, t) && Spreads(c, s)
    requires forall i | 0 <= i < |s.procs| :: Started(t.procs[i]) <==> Started(s.procs[i])
    requires forall m | m in s.msgs && m.kind.Election? :: m in t.msgs || Started(s.procs[m.to])
    ensures Spreads(c, t)
  {
    forall i: nat, j: nat | i < |t.procs| && Started(t.procs[i]) && Above(c, j, i)
      ensures Started(t.procs[j]) || Challenging(t, i, j)
    {
      if !Started(s.procs[j]) {
        var m :| m in s.msgs && m.kind.Election? && m.from == i && m.to == j;
        assert m in t.msgs;
      }
    }
  }

  lemma FromAboveFrom(c: Config, s: State, t: State, first: nat)
    requires Shape(c, s) && Shape(c, t) && FromAbove(c, s, first)
    requires forall i | 0 <= i < |s.procs| :: Started(t.procs[i]) <==> Started(s.procs[i])
    requires forall m | m in t.msgs && m.kind.Election? :: m in s.msgs
    ensures FromAbove(c, t, first)
  {}

  lemma SpreadsStart(c: Config, s: State, i: nat, first: nat)
    requires Shape(c, s) && Spreads(c, s) && FromAbove(c, s, first) && i < |s.procs|
    requires i == first || Above(c, i, first)
    ensures var t := StartElection(c, s, i);
      Shape(c, t) && Spreads(c, t) && FromAbove(c, t, first) && Started(t.procs[i])
  {
    ShapeStart(c, s, i);
    if !Started(s.procs[i]) {
      ChallengesAre(c, i, s.now, |c.nodes|);
      var t := StartElection(c, s, i);
      forall a: nat, j: nat | a < |t.procs| && Started(t.procs[a]) && Above(c, j, a)
        ensures Started(t.procs[j]) || Challenging(t, a, j)
      {
        if a == i {
          assert Msg(Election.Election, i, j, s.now) in t.msgs;
        } else if !Started(t.procs[j]) {
          var m :| m in s.msgs && m.kind.Election? && m.from == a && m.to == j;
          assert m in t.msgs;
        }
      }
    }
  }

  lemma SpreadsReceive(c: Config, s: State, k: nat, first: nat)
    requires Shape(c, s) && Spreads(c, s) && FromAbove(c, s, first) && k < |s.msgs|
    ensures var t := Next(c, s, Receive(k));
      Shape(c, t) && Spreads(c, t) && FromAbove(c, t, first)
  {
    hide Challenges, Call;
    var m := s.msgs[k];
    assert m in s.msgs;
    Removed(s.msgs, k);
    ShapeStep(c, s, Receive(k));
    if m.kind.Election? {
      var u := s.(msgs := s.msgs[..k] + s.msgs[k + 1..] + [Msg(Alive, m.to, m.from, s.now)]);
      SpreadsElection(c, s, u, m, first);
    } else {
      var t := Next(c, s, Receive(k));
      SpreadsFrom(c, s, t);
      FromAboveFrom(c, s, t, first);
    }
  }

  /** A challenge taken off the wire has started its receiver. */
  lemma SpreadsElection(c: Config, s: State, u: State, m: Msg, first: nat)
    requires Shape(c, s) && Shape(c, u) && Spreads(c, s) && FromAbove(c, s, first)
    requires m in s.msgs && m.kind.Election? && u.procs == s.procs && u.now == s.now
    requires forall x | x in s.msgs :: x == m || x in u.msgs
    requires forall x | x in u.msgs && x.kind.Election? :: x in s.msgs
    ensures var t := StartElection(c, u, m.to);
      Shape(c, t) && Spreads(c, t) && FromAbove(c, t, first)
  {
    hide Challenges;
    FromAboveFrom(c, s, u, first);
    ShapeStart(c, u, m.to);
    ChallengesAre(c, m.to, u.now, |c.nodes|);
    var t := StartElection(c, u, m.to);
    forall a: nat, j: nat | a < |t.procs| && Started(t.procs[a]) && Above(c, j, a)
      ensures Started(t.procs[j]) || Challenging(t, a, j)
    {
      if Started(s.procs[a]) {
        if !Started(t.procs[j]) {
          var x :| x in s.msgs && x.kind.Election? && x.from == a && x.to == j;
          assert x in t.msgs;
        }
      } else {
        assert Msg(Election.Election, a, j, u.now) in t.msgs;
      }
    }
  }

  lemma SpreadsStep(c: Config, s: State, step: Step, first: nat)
    requires Shape(c, s) && Spreads(c, s) && FromAbove(c, s, first) && Enabled(c, s, step)
    requires step.Detect? ==> step.i == first
    ensures var t := Next(c, s, step);
      Shape(c, t) && Spreads(c, t) && FromAbove(c, t, first)
  {
    ShapeStep(c, s, step);
    match step {
      case Detect(i) => SpreadsStart(c, s, i, first);
      case Receive(k) => SpreadsReceive(c, s, k, first);
      case _ =>
        var t := Next(c, s, step);
        SpreadsFrom(c, s, t);
        FromAboveFrom(c, s, t, first);
    }
  }

  predicate OnlyNotices(steps: seq<Step>, i: nat) {
    forall step | step in steps :: step.Detect? ==> step.i == i
  }

  lemma {:induction false} SpreadsRun(c: Config, s: State, steps: seq<Step>, first: nat)
    requires Shape(c, s) && Spreads(c, s) && FromAbove(c, s, first) && Run(c, s, steps).Some?
    requires OnlyNotices(steps, first)
    ensures var t := Run(c, s, steps).value;
      Shape(c, t) && Spreads(c, t) && FromAbove(c, t, first)
    decreases |steps|
  {
    hide Shape, Spreads, FromAbove, Next, Enabled;
    if steps != [] {
      assert steps[0] in steps && forall step | step in steps[1..] :: step in steps;
      SpreadsStep(c, s, steps[0], first);
      SpreadsRun(c, Next(c, s, steps[0]), steps[1..], first);
    }
  }

  // ---- one is enough ----

  /** No step is enabled but that of a backup noticing on its own that the primary is dead. */
  ghost predicate Still(c: Config, s: State) {
    forall step :: Enabled(c, s, step) ==> step.Detect?
  }

  lemma StillIsSettled(c: Config, s: State)
    requires Slow(c, s) && Still(c, s)
    ensures s.msgs == []
    ensures forall i | 0 <= i < |s.procs| && Started(s.procs[i]) :: s.procs[i].Passive? || s.procs[i].Won?
    ensures forall i | 0 <= i < |s.procs| && Started(s.procs[i]) && Top(c, i) :: s.procs[i].Won?
  {
    assert !Enabled(c, s, Receive(0)) && !Enabled(c, s, Tick);
    forall i | 0 <= i < |s.procs| && Started(s.procs[i])
      ensures s.procs[i].Passive? || s.procs[i].Won?
      ensures Top(c, i) ==> s.procs[i].Won?
    {
      assert !Enabled(c, s, Hear(i)) && !Enabled(c, s, TimeOut(i)) && !Enabled(c, s, Declare(i));
      assert !Running(c, s.procs[i], s.now);
      assert SlowProc(c, s, i);
    }
  }

  lemma InitSpreads(c: Config, primary: string, first: nat)
    ensures var s := Init(c, primary);
      Shape(c, s) && Spreads(c, s) && FromAbove(c, s, first)
  {}

  lemma {:induction false} StaysStarted(c: Config, s: State, steps: seq<Step>, i: nat)
    requires Shape(c, s) && Run(c, s, steps).Some? && i < |s.procs|
    requires Started(s.procs[i]) || Detect(i) in steps
    ensures i < |Run(c, s, steps).value.procs| && Started(Run(c, s, steps).value.procs[i])
    decreases |steps|
  {
    if steps != [] {
      ShapeStep(c, s, steps[0]);
      var t := Next(c, s, steps[0]);
      assert Started(s.procs[i]) ==> Started(t.procs[i]);
      assert steps == [steps[0]] + steps[1..];
      StaysStarted(c, t, steps[1..], i);
    }
  }

  /**
   * The bully law, on any network: if one backup notices that the primary is dead, and nobody else ever
   * does by itself, then once nothing moves any more exactly that backup and those above it have taken part,
   * and the largest id is a winner.
   */
  lemma OneNoticeIsEnough(c: Config, primary: string, steps: seq<Step>, i: nat)
    requires i < |c.nodes| && Run(c, Init(c, primary), steps).Some?
    requires Detect(i) in steps && OnlyNotices(steps, i) && Still(c, Run(c, Init(c, primary), steps).value)
    ensures var s := Run(c, Init(c, primary), steps).value;
      && |s.procs| == |c.nodes|
      && (forall j | 0 <= j < |c.nodes| :: Started(s.procs[j]) <==> j == i || Above(c, j, i))
      && (forall w | 0 <= w < |c.nodes| && Top(c, w) && (w == i || Above(c, w, i)) :: s.procs[w].Won?)
  {
    var s := Run(c, Init(c, primary), steps).value;
    InitSpreads(c, primary, i);
    SpreadsRun(c, Init(c, primary), steps, i);
    CountsReached(c, primary, steps);
    StillIsSettled(c, s);
    StaysStarted(c, Init(c, primary), steps, i);
    forall j | 0 <= j < |c.nodes| && Above(c, j, i)
      ensures Started(s.procs[j])
    {
      assert Started(s.procs[j]) || Challenging(s, i, j);
    }
  }

  /** From any state, without anybody else noticing, some run leads to one where nothing moves. */
  lemma {:induction false} ComesToRest(c: Config, s: State) returns (steps: seq<Step>)
    requires Shape(c, s)
    ensures Run(c, s, steps).Some? && Still(c, Run(c, s, steps).value)
    ensures forall step | step in steps :: !step.Detect?
    decreases Potential(c, s)
  {
    hide Potential, Enabled, Next, Shape;
    if Still(c, s) {
      steps := [];
    } else {
      var step :| Enabled(c, s, step) && !step.Detect?;
      StepLowers(c, s, step);
      ShapeStep(c, s, step);
      var rest := ComesToRest(c, Next(c, s, step));
      steps := [step] + rest;
      assert steps[1..] == rest;
    }
  }

  /**
   * Whichever backup notices first, and though nobody else does, some run leads to the victory of the largest
   * id; where the timeout exceeds two delays it is the only winner, and all the others have its address.
   */
  lemma WhoeverNoticesTheLargestWins(c: Config, primary: string, i: nat) returns (steps: seq<Step>, w: nat)
    requires Proper(c.nodes) && i < |c.nodes|
    ensures Run(c, Init(c, primary), steps).Some? && steps != [] && steps[0] == Detect(i)
    ensures forall k | 0 < k < |steps| :: !steps[k].Detect?
    ensures var s := Run(c, Init(c, primary), steps).value;
      && Still(c, s) && Top(c, w) && |s.procs| == |s.address| == |c.nodes| && s.procs[w].Won?
      && (2 * c.delay < c.timeout && primary != SELF_WIN_IP ==>
            && s.address[w] == SELF_WIN_IP
            && forall k | 0 <= k < |c.nodes| && k != w :: !Victorious(s.procs[k]) && s.address[k] == c.nodes[w].ip)
  {
    hide Run, Still;
    var s0 := Init(c, primary);
    RunOne(c, s0, Detect(i));
    ShapeStep(c, s0, Detect(i));
    var rest := ComesToRest(c, Next(c, s0, Detect(i)));
    RunConcat(c, s0, [Detect(i)], rest);
    steps := [Detect(i)] + rest;
    assert steps[0] == Detect(i) && forall k | 0 < k < |steps| :: steps[k] == rest[k - 1];
    w := SomeTop(c, |c.nodes|);
    OneNoticeIsEnough(c, primary, steps, i);
    TopIsAbove(c, w, i);
    if 2 * c.delay < c.timeout && primary != SELF_WIN_IP {
      WinnerIsAcknowledged(c, primary, steps, w);
      OnlyTheTopDeclaresVictory(c, primary, steps);
      var s := Run(c, s0, steps).value;
      forall k | 0 <= k < |c.nodes| && k != w
        ensures !Victorious(s.procs[k])
      {
        assert c.nodes[k].id != c.nodes[w].id;
      }
    } else {
      ShapeRun(c, s0, steps);
    }
  }

  lemma TopIsAbove(c: Config, w: nat, i: nat)
    requires Proper(c.nodes) && Top(c, w) && i < |c.nodes|
    ensures w == i || Above(c, w, i)
  {
    if w != i { assert c.nodes[w].id != c.nodes[i].id; }
  }
}
