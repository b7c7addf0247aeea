/**
 * The bully election among the backups of a dead primary (server/includes/backup/bullyElection.hpp
 * and server/src/main.cpp) as a step system with messages in flight and a clock.  Processes are
 * positions in the node list they all hold.
 */
module Election {
  import opened Bytes
  import opened Payloads

  const SELF_WIN_IP: string := "localhost"

  /** Every message arrives, and is acted on, within `delay` units; a candidate waits `timeout` units. */
  datatype Config = Config(nodes: seq<Node>, timeout: nat, delay: nat)

  /** A node list with distinct ids; addresses come from accepted connections and are never "localhost". */
  ghost predicate Proper(nodes: seq<Node>) {
    && nodes != []
    && (forall i, j | 0 <= i < j < |nodes| :: nodes[i].id != nodes[j].id)
    && (forall n | n in nodes :: n.ip != SELF_WIN_IP)
  }

  ghost predicate Valid(c: Config) {
    Proper(c.nodes) && 2 * c.delay < c.timeout
  }

  /** `Waiting` is the timeout loop with its flag `anyThreadEnded`; `Declaring` the loop of declareVictory. */
  datatype Proc =
    | Unstarted
    | Waiting(start: nat, ended: bool)
    | Passive
    | Declaring(next: nat, awaiting: bool)
    | Won

  /** `Alive` answers an ELECTION, `Ack` a COORDINATOR; both are ALIVE headers on the wire. */
  datatype Kind = Election | Alive | Coordinator | Ack

  datatype Msg = Msg(kind: Kind, from: nat, to: nat, sentAt: nat)

  datatype State = State(
    procs: seq<Proc>, address: seq<string>, msgs: seq<Msg>, now: nat, elections: nat, coordinators: nat)

  datatype Step =
    | Detect(i: nat)
    | Receive(k: nat)
    | Hear(i: nat)
    | TimeOut(i: nat)
    | Declare(i: nat)
    | Tick

  /** The ELECTION messages of a candidate to the first `n` listed nodes: those with a larger id. */
  function Challenges(c: Config, i: nat, now: nat, n: nat): seq<Msg>
    requires i < |c.nodes| && n <= |c.nodes|
  {
    if n == 0 then [] else
      Challenges(c, i, now, n - 1)
      + if c.nodes[n - 1].id <= c.nodes[i].id then [] else [Msg(Election, i, n - 1, now)]
  }

  /** startElection; `isElecting` is down exactly while a process is Unstarted. */
  function StartElection(c: Config, s: State, i: nat): State
    requires i < |c.nodes| == |s.procs|
  {
    if !s.procs[i].Unstarted? then s else
      var challenges := Challenges(c, i, s.now, |c.nodes|);
      s.(procs := s.procs[i := Waiting(s.now, false)],
         msgs := s.msgs + challenges,
         elections := s.elections + |challenges|)
  }

  predicate InTime(c: Config, s: State) {
    forall m | m in s.msgs :: s.now < m.sentAt + c.delay
  }

  predicate Running(c: Config, p: Proc, now: nat) {
    p.Waiting? && now < p.start + c.timeout
  }

  /** A tick is a step of the protocol while something is on its way or a timer is running. */
  predicate Enabled(c: Config, s: State, step: Step) {
    match step
    case Detect(i) => i < |s.procs| && s.procs[i].Unstarted?
    case Receive(k) => k < |s.msgs|
    case Hear(i) => i < |s.procs| && s.procs[i].Waiting? && s.procs[i].ended
    case TimeOut(i) =>
      i < |s.procs| && s.procs[i].Waiting? && !s.procs[i].ended && s.now >= s.procs[i].start + c.timeout
    case Declare(i) => i < |s.procs| && s.procs[i].Declaring? && !s.procs[i].awaiting
    case Tick => InTime(c, s) && (s.msgs != [] || exists i | 0 <= i < |s.procs| :: Running(c, s.procs[i], s.now))
  }

  ghost predicate Shape(c: Config, s: State) {
    && |s.procs| == |s.address| == |c.nodes|
    && (forall m | m in s.msgs :: m.from < |c.nodes| && m.to < |c.nodes|)
    && (forall i | 0 <= i < |s.procs| :: s.procs[i].Declaring? ==> s.procs[i].next <= |c.nodes|)
  }

  function Deliver(c: Config, s: State, m: Msg): State
    requires |s.procs| == |s.address| == |c.nodes| && m.from < |c.nodes| && m.to < |c.nodes|
  {
    var p := s.procs[m.to];
    match m.kind
    case Election => StartElection(c, s.(msgs := s.msgs + [Msg(Alive, m.to, m.from, s.now)]), m.to)
    case Alive => if p.Waiting? then s.(procs := s.procs[m.to := p.(ended := true)]) else s
    case Coordinator =>
      s.(msgs := s.msgs + [Msg(Ack, m.to, m.from, s.now)], address := s.address[m.to := c.nodes[m.from].ip])
    case Ack =>
      if p == Declaring(m.from, true) then s.(procs := s.procs[m.to := Declaring(m.from + 1, false)]) else s
  }

  /** One turn of the loop of declareVictory, or its end, which makes the process leave the backup loop. */
  function DeclareTurn(c: Config, s: State, i: nat): State
    requires |s.procs| == |s.address| == |c.nodes| && i < |s.procs| && s.procs[i].Declaring?
  {
    var next := s.procs[i].next;
    if next >= |c.nodes| then s.(procs := s.procs[i := Won], address := s.address[i := SELF_WIN_IP])
    else if c.nodes[next].id == c.nodes[i].id then s.(procs := s.procs[i := Declaring(next + 1, false)])
    else s.(procs := s.procs[i := Declaring(next, true)],
            msgs := s.msgs + [Msg(Coordinator, i, next, s.now)], coordinators := s.coordinators + 1)
  }

  function Next(c: Config, s: State, step: Step): State
    requires Shape(c, s) && Enabled(c, s, step)
  {
    match step
    case Detect(i) => StartElection(c, s, i)
    case Receive(k) =>
      var m := s.msgs[k];
      assert m in s.msgs;
      Deliver(c, s.(msgs := s.msgs[..k] + s.msgs[k + 1..]), m)
    case Hear(i) => s.(procs := s.procs[i := Passive])
    case TimeOut(i) => s.(procs := s.procs[i := Declaring(0, false)])
    case Declare(i) => DeclareTurn(c, s, i)
    case Tick => s.(now := s.now + 1)
  }

  /** All the backups just after the primary died, each still holding its address. */
  function Init(c: Config, primary: string): State {
    State(seq(|c.nodes|, _ => Unstarted), seq(|c.nodes|, _ => primary), [], 0, 0, 0)
  }

  // ---- the invariant ----

  predicate Above(c: Config, j: nat, i: nat) {
    i < |c.nodes| && j < |c.nodes| && c.nodes[j].id > c.nodes[i].id
  }

  predicate Top(c: Config, i: nat) {
    i < |c.nodes| && forall j | 0 <= j < |c.nodes| :: c.nodes[j].id <= c.nodes[i].id
  }

  ghost predicate MsgInv(c: Config, s: State, m: Msg)
    requires |s.procs| == |s.address| == |c.nodes|
  {
    && m.from < |c.nodes| && m.to < |c.nodes|
    && m.sentAt <= s.now <= m.sentAt + c.delay
    && (m.kind.Election? ==> Above(c, m.to, m.from))
    && (m.kind.Alive? ==> Above(c, m.from, m.to))
    && (m.kind.Coordinator? ==> s.procs[m.from] == Declaring(m.to, true))
    && (m.kind.Ack? ==> s.procs[m.to] == Declaring(m.from, true) && s.address[m.from] == c.nodes[m.to].ip)
  }

  predicate Call(m: Msg) {
    m.kind.Coordinator? || m.kind.Ack?
  }

  /** At most one COORDINATOR, or the answer to it, is ever on its way. */
  ghost predicate OneCall(msgs: seq<Msg>) {
    forall a, b | 0 <= a < b < |msgs| :: !(Call(msgs[a]) && Call(msgs[b]))
  }

  /** The challenge of `i` to `j`, or the answer to it, is on its way and not older than it may be. */
  ghost predicate Answering(c: Config, s: State, i: nat, j: nat, start: nat) {
    || Msg(Election, i, j, start) in s.msgs
    || exists m | m in s.msgs :: m.kind.Alive? && m.from == j && m.to == i && m.sentAt <= start + c.delay
  }

  ghost predicate Told(c: Config, s: State, i: nat, n: nat)
    requires |s.address| == |c.nodes| && i < |c.nodes| && n <= |c.nodes|
  {
    forall k | 0 <= k < n && k != i :: s.address[k] == c.nodes[i].ip
  }

  ghost predicate ProcInv(c: Config, s: State, i: nat)
    requires Shape(c, s) && i < |s.procs|
  {
    match s.procs[i]
    case Unstarted => true
    case Waiting(start, ended) =>
      && start <= s.now
      && (if ended then !Top(c, i) else forall j | Above(c, j, i) :: Answering(c, s, i, j, start))
    case Passive => !Top(c, i)
    case Declaring(next, awaiting) =>
      && Top(c, i) && Told(c, s, i, next)
      && (awaiting ==> next < |c.nodes| && next != i && Calling(s, i, next))
    case Won => Top(c, i) && Told(c, s, i, |c.nodes|) && s.address[i] == SELF_WIN_IP
  }

  ghost predicate Calling(s: State, i: nat, j: nat) {
    exists m | m in s.msgs :: m == Msg(Coordinator, i, j, m.sentAt) || m == Msg(Ack, j, i, m.sentAt)
  }

  /** Only a winner's own address says that it is the primary. */
  ghost predicate AddressInv(c: Config, s: State)
    requires Shape(c, s)
  {
    forall i | 0 <= i < |s.procs| :: s.address[i] == SELF_WIN_IP ==> s.procs[i].Won?
  }

  ghost predicate Inv(c: Config, s: State) {
    && Shape(c, s)
    && (forall m | m in s.msgs :: MsgInv(c, s, m))
    && (forall i | 0 <= i < |s.procs| :: ProcInv(c, s, i))
    && AddressInv(c, s) && OneCall(s.msgs)
  }

  lemma InitInv(c: Config, primary: string)
    requires primary != SELF_WIN_IP
    ensures Inv(c, Init(c, primary))
  {}

  lemma {:induction false} ChallengesAre(c: Config, i: nat, now: nat, n: nat)
    requires i < |c.nodes| && n <= |c.nodes|
    ensures forall m | m in Challenges(c, i, now, n) ::
      m.kind.Election? && m.from == i && Above(c, m.to, i) && m.sentAt == now
    ensures forall j: nat | j < n && Above(c, j, i) :: Msg(Election, i, j, now) in Challenges(c, i, now, n)
  {
    if n > 0 { ChallengesAre(c, i, now, n - 1); }
  }

  /** The timeout guard, derived: while somebody stands above a waiting candidate it cannot run out of time. */
  lemma NoTimeoutBelow(c: Config, s: State, i: nat, j: nat)
    requires Valid(c) && Inv(c, s) && i < |s.procs| && Above(c, j, i)
    ensures !Enabled(c, s, TimeOut(i))
  {
    if s.procs[i].Waiting? && !s.procs[i].ended {
      var start := s.procs[i].start;
      assert ProcInv(c, s, i);
      assert Answering(c, s, i, j, start);
      if Msg(Election, i, j, start) in s.msgs {
        assert MsgInv(c, s, Msg(Election, i, j, start));
      } else {
        var m :| m in s.msgs && m.kind.Alive? && m.from == j && m.to == i && m.sentAt <= start + c.delay;
        assert MsgInv(c, s, m);
      }
      assert s.now <= start + 2 * c.delay;
    }
  }

  lemma TopIsUnique(c: Config, i: nat, j: nat)
    requires Valid(c) && Top(c, i) && Top(c, j)
    ensures i == j
  {
    assert c.nodes[i].id == c.nodes[j].id;
  }

  // ---- one lemma a step ----

  /** A process whose own entry stands still loses nothing when messages and time are only added. */
  lemma Undisturbed(c: Config, s: State, t: State, k: nat)
    requires Shape(c, s) && Shape(c, t) && k < |s.procs| && ProcInv(c, s, k)
    requires t.procs[k] == s.procs[k] && t.now >= s.now && t.address == s.address
    requires forall m | m in s.msgs :: m in t.msgs
    ensures ProcInv(c, t, k)
  {
    if s.procs[k].Waiting? && !s.procs[k].ended {
      forall j | Above(c, j, k)
        ensures Answering(c, t, k, j, s.procs[k].start)
      {
        assert Answering(c, s, k, j, s.procs[k].start);
      }
    }
  }

  lemma StartKeeps(c: Config, s: State, i: nat)
    requires Valid(c) && Inv(c, s) && i < |s.procs|
    ensures Inv(c, StartElection(c, s, i))
  {
    var t := StartElection(c, s, i);
    if s.procs[i].Unstarted? {
      ChallengesAre(c, i, s.now, |c.nodes|);
      forall m | m in t.msgs
        ensures MsgInv(c, t, m)
      {
        if m in s.msgs { assert MsgInv(c, s, m); }
      }
      forall k | 0 <= k < |t.procs|
        ensures ProcInv(c, t, k)
      {
        assert ProcInv(c, s, k);
        if k != i { Undisturbed(c, s, t, k); }
      }
    }
  }

  lemma TickKeeps(c: Config, s: State)
    requires Valid(c) && Inv(c, s) && Enabled(c, s, Tick)
    ensures Inv(c, Next(c, s, Tick))
  {
    var t := Next(c, s, Tick);
    forall m | m in t.msgs
      ensures MsgInv(c, t, m)
    {
      assert MsgInv(c, s, m);
    }
    forall k | 0 <= k < |t.procs|
      ensures ProcInv(c, t, k)
    {
      Undisturbed(c, s, t, k);
    }
  }

  /** A step of one process that sends nothing and that no call in flight is about. */
  lemma LocalKeeps(c: Config, s: State, i: nat, p: Proc)
    requires Valid(c) && Inv(c, s) && i < |s.procs|
    requires !(s.procs[i].Declaring? && s.procs[i].awaiting) && !s.procs[i].Won? && !p.Won?
    requires p.Declaring? ==> p.next <= |c.nodes|
    requires ProcInv(c, s.(procs := s.procs[i := p]), i)
    ensures Inv(c, s.(procs := s.procs[i := p]))
  {
    var t := s.(procs := s.procs[i := p]);
    forall m | m in t.msgs
      ensures MsgInv(c, t, m)
    {
      assert MsgInv(c, s, m);
    }
    forall k | 0 <= k < |t.procs|
      ensures ProcInv(c, t, k)
    {
      assert ProcInv(c, s, k);
      if k != i { Undisturbed(c, s, t, k); }
    }
  }

  lemma HearKeeps(c: Config, s: State, i: nat)
    requires Valid(c) && Inv(c, s) && Enabled(c, s, Hear(i))
    ensures Inv(c, Next(c, s, Hear(i)))
  {
    assert ProcInv(c, s, i);
    LocalKeeps(c, s, i, Passive);
  }

  lemma TimeOutKeeps(c: Config, s: State, i: nat)
    requires Valid(c) && Inv(c, s) && Enabled(c, s, TimeOut(i))
    ensures Inv(c, Next(c, s, TimeOut(i)))
  {
    forall j | 0 <= j < |c.nodes|
      ensures c.nodes[j].id <= c.nodes[i].id
    {
      if Above(c, j, i) { NoTimeoutBelow(c, s, i, j); }
    }
    LocalKeeps(c, s, i, Declaring(0, false));
  }

  lemma NoCallWhileNotAwaiting(c: Config, s: State, i: nat)
    requires Valid(c) && Inv(c, s) && i < |s.procs| && Top(c, i)
    requires !(s.procs[i].Declaring? && s.procs[i].awaiting)
    ensures forall m | m in s.msgs :: !Call(m)
  {
    forall m | m in s.msgs
      ensures !Call(m)
    {
      assert MsgInv(c, s, m);
      if Call(m) {
        var d := if m.kind.Coordinator? then m.from else m.to;
        assert ProcInv(c, s, d);
        TopIsUnique(c, i, d);
      }
    }
  }

  lemma DeclareKeeps(c: Config, s: State, i: nat)
    requires Valid(c) && Inv(c, s) && Enabled(c, s, Declare(i))
    ensures Inv(c, Next(c, s, Declare(i)))
  {
    var t := Next(c, s, Declare(i));
    var next := s.procs[i].next;
    assert ProcInv(c, s, i);
    NoCallWhileNotAwaiting(c, s, i);
    forall m | m in t.msgs
      ensures MsgInv(c, t, m)
    {
      if m in s.msgs { assert MsgInv(c, s, m); }
    }
    forall k | 0 <= k < |t.procs|
      ensures ProcInv(c, t, k)
    {
      assert ProcInv(c, s, k);
      if k != i { AddressElsewhere(c, s, t, k, i); }
      else if next < |c.nodes| && next != i {
        var call := Msg(Coordinator, i, next, s.now);
        assert call in t.msgs && c.nodes[next].id != c.nodes[i].id;
      }
    }
  }

  /** A process that is not the top does not look at addresses. */
  lemma AddressElsewhere(c: Config, s: State, t: State, k: nat, top: nat)
    requires Valid(c) && Shape(c, s) && Shape(c, t) && k < |s.procs| && ProcInv(c, s, k)
    requires t.procs[k] == s.procs[k] && t.now >= s.now && Top(c, top) && k != top
    requires forall m | m in s.msgs :: m in t.msgs
    ensures ProcInv(c, t, k)
  {
    if Top(c, k) { TopIsUnique(c, k, top); }
    if s.procs[k].Waiting? && !s.procs[k].ended {
      forall j | Above(c, j, k)
        ensures Answering(c, t, k, j, s.procs[k].start)
      {
        assert Answering(c, s, k, j, s.procs[k].start);
      }
    }
  }

  lemma Removed(msgs: seq<Msg>, k: nat)
    requires k < |msgs|
    ensures var rest := msgs[..k] + msgs[k + 1..];
      && (forall m | m in rest :: m in msgs)
      && (forall m | m in msgs :: m == msgs[k] || m in rest)
      && (OneCall(msgs) ==> OneCall(rest) && (Call(msgs[k]) ==> forall m | m in rest :: !Call(m)))
  {
    var rest := msgs[..k] + msgs[k + 1..];
    forall a | 0 <= a < |rest|
      ensures rest[a] == msgs[if a < k then a else a + 1]
    {}
    assert msgs == msgs[..k] + [msgs[k]] + msgs[k + 1..];
    if OneCall(msgs) {
      forall a, b | 0 <= a < b < |rest|
        ensures !(Call(rest[a]) && Call(rest[b]))
      {
        assert !(Call(msgs[if a < k then a else a + 1]) && Call(msgs[if b < k then b else b + 1]));
      }
    }
  }

  /** Taking message `m` out disturbs only the process that was waiting for it. */
  lemma WithoutMessage(c: Config, s: State, t: State, p: nat, m: Msg)
    requires Shape(c, s) && Shape(c, t) && p < |s.procs| && ProcInv(c, s, p)
    requires t.procs[p] == s.procs[p] && t.now == s.now <= m.sentAt + c.delay
    requires t.address == s.address || !Top(c, p)
    requires forall x | x in s.msgs :: x == m || x in t.msgs
    requires m.kind.Election? ==> Msg(Alive, m.to, m.from, s.now) in t.msgs
    requires m.kind.Alive? && m.to == p ==> !(s.procs[p].Waiting? && !s.procs[p].ended)
    requires Call(m) ==> !(s.procs[p].Declaring? && s.procs[p].awaiting)
    ensures ProcInv(c, t, p)
  {
    if s.procs[p].Waiting? && !s.procs[p].ended {
      var start := s.procs[p].start;
      forall j | Above(c, j, p)
        ensures Answering(c, t, p, j, start)
      {
        assert Answering(c, s, p, j, start);
        if Msg(Election, p, j, start) in s.msgs {
          if m == Msg(Election, p, j, start) { assert Msg(Alive, j, p, s.now) in t.msgs; }
        }
      }
    }
  }

  lemma ReceiveElectionKeeps(c: Config, s: State, k: nat)
    requires Valid(c) && Inv(c, s) && k < |s.msgs| && s.msgs[k].kind.Election?
    ensures Inv(c, Next(c, s, Receive(k)))
  {
    var m := s.msgs[k];
    assert m in s.msgs && MsgInv(c, s, m);
    Removed(s.msgs, k);
    var answer := Msg(Alive, m.to, m.from, s.now);
    var t := s.(msgs := s.msgs[..k] + s.msgs[k + 1..] + [answer]);
    assert answer in t.msgs;
    forall x | x in t.msgs
      ensures MsgInv(c, t, x)
    {
      if x in s.msgs { assert MsgInv(c, s, x); }
    }
    forall p | 0 <= p < |t.procs|
      ensures ProcInv(c, t, p)
    {
      WithoutMessage(c, s, t, p, m);
    }
    StartKeeps(c, t, m.to);
  }

  lemma ReceiveAliveKeeps(c: Config, s: State, k: nat)
    requires Valid(c) && Inv(c, s) && k < |s.msgs| && s.msgs[k].kind.Alive?
    ensures Inv(c, Next(c, s, Receive(k)))
  {
    var m := s.msgs[k];
    assert m in s.msgs && MsgInv(c, s, m);
    Removed(s.msgs, k);
    var t := Next(c, s, Receive(k));
    forall x | x in t.msgs
      ensures MsgInv(c, t, x)
    {
      assert MsgInv(c, s, x);
    }
    forall p | 0 <= p < |t.procs|
      ensures ProcInv(c, t, p)
    {
      assert ProcInv(c, s, p);
      if p != m.to || !s.procs[p].Waiting? { WithoutMessage(c, s, t, p, m); }
    }
  }

  lemma ReceiveCoordinatorKeeps(c: Config, s: State, k: nat)
    requires Valid(c) && Inv(c, s) && k < |s.msgs| && s.msgs[k].kind.Coordinator?
    ensures Inv(c, Next(c, s, Receive(k)))
  {
    var m := s.msgs[k];
    assert m in s.msgs && MsgInv(c, s, m);
    assert ProcInv(c, s, m.from);
    Removed(s.msgs, k);
    var t := Next(c, s, Receive(k));
    var ack := Msg(Ack, m.to, m.from, s.now);
    assert ack in t.msgs && c.nodes[m.from] in c.nodes;
    forall x | x in t.msgs
      ensures MsgInv(c, t, x)
    {
      if x in s.msgs { assert MsgInv(c, s, x); }
    }
    forall p | 0 <= p < |t.procs|
      ensures ProcInv(c, t, p)
    {
      assert ProcInv(c, s, p);
      if p != m.from {
        if Top(c, p) { TopIsUnique(c, p, m.from); }
        WithoutMessage(c, s, t, p, m);
      }
    }
  }

  lemma ReceiveAckKeeps(c: Config, s: State, k: nat)
    requires Valid(c) && Inv(c, s) && k < |s.msgs| && s.msgs[k].kind.Ack?
    ensures Inv(c, Next(c, s, Receive(k)))
  {
    var m := s.msgs[k];
    assert m in s.msgs && MsgInv(c, s, m);
    assert ProcInv(c, s, m.to);
    Removed(s.msgs, k);
    var t := Next(c, s, Receive(k));
    forall x | x in t.msgs
      ensures MsgInv(c, t, x)
    {
      assert MsgInv(c, s, x);
    }
    forall p | 0 <= p < |t.procs|
      ensures ProcInv(c, t, p)
    {
      assert ProcInv(c, s, p);
      if p != m.to {
        if Top(c, p) { TopIsUnique(c, p, m.to); }
        WithoutMessage(c, s, t, p, m);
      }
    }
  }

  lemma InvStep(c: Config, s: State, step: Step)
    requires Valid(c) && Inv(c, s) && Enabled(c, s, step)
    ensures Inv(c, Next(c, s, step))
  {
    match step {
      case Detect(i) => StartKeeps(c, s, i);
      case Receive(k) =>
        match s.msgs[k].kind {
          case Election => ReceiveElectionKeeps(c, s, k);
          case Alive => ReceiveAliveKeeps(c, s, k);
          case Coordinator => ReceiveCoordinatorKeeps(c, s, k);
          case Ack => ReceiveAckKeeps(c, s, k);
        }
      case Hear(i) => HearKeeps(c, s, i);
      case TimeOut(i) => TimeOutKeeps(c, s, i);
      case Declare(i) => DeclareKeeps(c, s, i);
      case Tick => TickKeeps(c, s);
    }
  }

  // ---- runs ----

  ghost function Run(c: Config, s: State, steps: seq<Step>): Option<State>
    decreases |steps|
  {
    if steps == [] then Some(s)
    else if !(Shape(c, s) && Enabled(c, s, steps[0])) then None
    else Run(c, Next(c, s, steps[0]), steps[1..])
  }

  // ---- shape ----

  lemma ShapeStart(c: Config, s: State, i: nat)
    requires Shape(c, s) && i < |s.procs|
    ensures Shape(c, StartElection(c, s, i))
  {
    ChallengesAre(c, i, s.now, |c.nodes|);
  }

  /** No step needs any assumption on time, ids or addresses to be well formed. */
  lemma ShapeStep(c: Config, s: State, step: Step)
    requires Shape(c, s) && Enabled(c, s, step)
    ensures Shape(c, Next(c, s, step))
  {
    match step {
      case Detect(i) => ShapeStart(c, s, i);
      case Receive(k) => ShapeReceive(c, s, k);
      case _ =>
    }
  }

  lemma ShapeReceive(c: Config, s: State, k: nat)
    requires Shape(c, s) && k < |s.msgs|
    ensures Shape(c, Next(c, s, Receive(k)))
  {
    hide Call, Challenges;
    var m := s.msgs[k];
    assert m in s.msgs;
    Removed(s.msgs, k);
    var rest := s.(msgs := s.msgs[..k] + s.msgs[k + 1..]);
    if m.kind.Election? {
      ShapeStart(c, rest.(msgs := rest.msgs + [Msg(Alive, m.to, m.from, s.now)]), m.to);
    } else {
      assert Next(c, s, Receive(k)) == Deliver(c, rest, m);
    }
  }

  lemma {:induction false} ShapeRun(c: Config, s: State, steps: seq<Step>)
    requires Shape(c, s) && Run(c, s, steps).Some?
    ensures Shape(c, Run(c, s, steps).value)
    decreases |steps|
  {
    hide Shape, Next, Enabled;
    if steps != [] {
      ShapeStep(c, s, steps[0]);
      ShapeRun(c, Next(c, s, steps[0]), steps[1..]);
    }
  }

  lemma {:induction false} InvRun(c: Config, s: State, steps: seq<Step>)
    requires Valid(c) && Inv(c, s) && Run(c, s, steps).Some?
    ensures Inv(c, Run(c, s, steps).value)
    decreases |steps|
  {
    if steps != [] {
      InvStep(c, s, steps[0]);
      InvRun(c, Next(c, s, steps[0]), steps[1..]);
    }
  }

  /** A process that declared itself the winner, or is still telling the others. */
  predicate Victorious(p: Proc) {
    p.Declaring? || p.Won?
  }

  /** Safety: in every run only the node with the largest id ever declares victory. */
  lemma OnlyTheTopDeclaresVictory(c: Config, primary: string, steps: seq<Step>)
    requires Valid(c) && primary != SELF_WIN_IP && Run(c, Init(c, primary), steps).Some?
    ensures var s := Run(c, Init(c, primary), steps).value;
      && |s.procs| == |c.nodes|
      && forall i | 0 <= i < |s.procs| && Victorious(s.procs[i]) :: Top(c, i)
    ensures var s := Run(c, Init(c, primary), steps).value;
      forall i, j | 0 <= i < |s.procs| && 0 <= j < |s.procs| && Victorious(s.procs[i]) && Victorious(s.procs[j]) ::
        i == j
  {
    InitInv(c, primary);
    InvRun(c, Init(c, primary), steps);
    var s := Run(c, Init(c, primary), steps).value;
    forall i | 0 <= i < |s.procs| && Victorious(s.procs[i])
      ensures Top(c, i)
    {
      assert ProcInv(c, s, i);
    }
    forall i, j | 0 <= i < |s.procs| && 0 <= j < |s.procs| && Victorious(s.procs[i]) && Victorious(s.procs[j])
      ensures i == j
    {
      TopIsUnique(c, i, j);
    }
  }

  /** The winner leaves the backup loop only after every other node has taken its address, and nobody else leaves. */
  lemma WinnerIsAcknowledged(c: Config, primary: string, steps: seq<Step>, i: nat)
    requires Valid(c) && primary != SELF_WIN_IP && Run(c, Init(c, primary), steps).Some?
    requires i < |c.nodes|
    ensures var s := Run(c, Init(c, primary), steps).value;
      && |s.procs| == |s.address| == |c.nodes|
      && (s.address[i] == SELF_WIN_IP <==> s.procs[i].Won?)
      && (s.procs[i].Won? ==> forall k | 0 <= k < |c.nodes| && k != i :: s.address[k] == c.nodes[i].ip)
  {
    InitInv(c, primary);
    InvRun(c, Init(c, primary), steps);
    var s := Run(c, Init(c, primary), steps).value;
    assert ProcInv(c, s, i);
  }

  lemma {:induction false} SomeTop(c: Config, n: nat) returns (i: nat)
    requires 0 < n <= |c.nodes|
    ensures i < n && forall j | 0 <= j < n :: c.nodes[j].id <= c.nodes[i].id
  {
    i := n - 1;
    if n > 1 {
      var k := SomeTop(c, n - 1);
      if c.nodes[k].id > c.nodes[n - 1].id { i := k; }
    }
  }

  ghost predicate Finished(c: Config, s: State) {
    forall step :: !Enabled(c, s, step)
  }

  /** In a state with no enabled step every process has settled. */
  lemma FinishedIsSettled(c: Config, s: State, i: nat)
    requires Valid(c) && Inv(c, s) && Finished(c, s) && i < |s.procs|
    ensures s.msgs == [] && (s.procs[i].Passive? || s.procs[i].Won?)
  {
    assert !Enabled(c, s, Receive(0));
    assert !Enabled(c, s, Detect(i)) && !Enabled(c, s, Hear(i)) && !Enabled(c, s, TimeOut(i));
    assert !Enabled(c, s, Declare(i)) && !Enabled(c, s, Tick);
    assert ProcInv(c, s, i);
    assert !Running(c, s.procs[i], s.now);
  }

  /**
   * A run that reaches a state with no enabled step has exactly one winner, the node with the
   * largest id: it alone has left the backup loop, and every other node's primary is that winner.
   */
  lemma FinishedElectionHasOneWinner(c: Config, primary: string, steps: seq<Step>) returns (w: nat)
    requires Valid(c) && primary != SELF_WIN_IP && Run(c, Init(c, primary), steps).Some?
    requires Finished(c, Run(c, Init(c, primary), steps).value)
    ensures var s := Run(c, Init(c, primary), steps).value;
      && Top(c, w) && |s.procs| == |s.address| == |c.nodes| && s.procs[w].Won? && s.address[w] == SELF_WIN_IP
      && forall k | 0 <= k < |c.nodes| && k != w ::
           s.procs[k].Passive? && s.address[k] == c.nodes[w].ip && s.address[k] != SELF_WIN_IP
  {
    InitInv(c, primary);
    InvRun(c, Init(c, primary), steps);
    var s := Run(c, Init(c, primary), steps).value;
    w := SomeTop(c, |c.nodes|);
    FinishedIsSettled(c, s, w);
    assert ProcInv(c, s, w);
    assert c.nodes[w] in c.nodes;
    forall k | 0 <= k < |c.nodes| && k != w
      ensures s.procs[k].Passive?
    {
      FinishedIsSettled(c, s, k);
      assert ProcInv(c, s, k);
      if s.procs[k].Won? { TopIsUnique(c, k, w); }
    }
  }
}
