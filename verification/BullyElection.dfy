/** The election object of one backup: its loops, and that they are the steps of the election. */
module BullyElection {
  import opened Payloads
  import opened Registry
  import Election

  /** The listed nodes with a larger id, in list order. */
  function Higher(nodes: seq<Node>, id: int): seq<Node> {
    if nodes == [] then []
    else Higher(nodes[..|nodes| - 1], id) + if nodes[|nodes| - 1].id <= id then [] else [nodes[|nodes| - 1]]
  }

  /** All the listed nodes but the one with this id. */
  function Others(nodes: seq<Node>, id: int): seq<Node> {
    if nodes == [] then []
    else Others(nodes[..|nodes| - 1], id) + if nodes[|nodes| - 1].id == id then [] else [nodes[|nodes| - 1]]
  }

  /** The readings a timeout loop makes: the clock, and the flag the answering threads raise for good. */
  datatype Readings = Readings(clock: nat -> int, ended: nat -> bool)

  ghost predicate Monotone(r: Readings) {
    forall i: nat, j: nat | i <= j :: r.clock(i) <= r.clock(j) && (r.ended(i) ==> r.ended(j))
  }

  /** Reading `last` ends the wait: the first one, after the start, at which the time is up or the flag is. */
  ghost predicate Decides(r: Readings, timeout: int, last: nat) {
    && last >= 1 && (r.clock(last) - r.clock(0) >= timeout || r.ended(last))
    && forall i: nat | 1 <= i < last :: r.clock(i) - r.clock(0) < timeout && !r.ended(i)
  }

  lemma DecidingIsUnique(r: Readings, timeout: int, a: nat, b: nat)
    requires Decides(r, timeout, a) && Decides(r, timeout, b)
    ensures a == b
  {}

  class BullyElection {
    const backupState: BackupState
    var isElecting: bool

    constructor (backupState: BackupState)
      ensures this.backupState == backupState && !isElecting
    {
      this.backupState, isElecting := backupState, false;
    }

    /** One ELECTION to every node above, unless an election was started here before. */
    method Challenge() returns (started: bool, contacted: seq<Node>)
      modifies this
      ensures isElecting && started == !old(isElecting)
      ensures contacted ==
        if started then Higher(backupState.connectedBackupNodes, backupState.serverId) else []
    {
      contacted := [];
      if isElecting {
        return false, [];
      }
      isElecting := true;
      started := true;
      var nodes := backupState.connectedBackupNodes;
      for i := 0 to |nodes|
        invariant isElecting && nodes == backupState.connectedBackupNodes
        invariant contacted == Higher(nodes[..i], backupState.serverId)
      {
        assert nodes[..i + 1][..i] == nodes[..i];
        if nodes[i].id <= backupState.serverId {
          continue;
        }
        contacted := contacted + [nodes[i]];
      }
      assert nodes[..|nodes|] == nodes;
    }

    /**
     * The timeout loop: victory exactly when no answer has been seen by the reading that ends it.
     * `horizon` is a reading by which the time is up.
     */
    method WaitForAnswer(r: Readings, timeout: int, ghost horizon: nat) returns (victory: bool, last: nat)
      requires Monotone(r) && horizon > 0 && r.clock(horizon) - r.clock(0) >= timeout
      ensures Decides(r, timeout, last) && victory == !r.ended(last)
      ensures victory ==> r.clock(last) - r.clock(0) >= timeout && forall i: nat | i <= last :: !r.ended(i)
    {
      var start := r.clock(0);
      last := 1;
      while r.clock(last) - start < timeout
        invariant 1 <= last <= horizon
        invariant forall i: nat | 1 <= i < last :: r.clock(i) - start < timeout && !r.ended(i)
        decreases horizon - last
      {
        if r.ended(last) {
          break;
        }
        last := last + 1;
      }
      victory := !r.ended(last);
    }

    /** One COORDINATOR to every other node, in list order, and then the end of the election. */
    method DeclareVictory() returns (told: seq<Node>)
      modifies backupState`primaryServerAddress
      ensures told == Others(backupState.connectedBackupNodes, backupState.serverId)
      ensures backupState.primaryServerAddress == Election.SELF_WIN_IP
    {
      told := [];
      var nodes := backupState.connectedBackupNodes;
      for i := 0 to |nodes|
        invariant nodes == backupState.connectedBackupNodes
        invariant told == Others(nodes[..i], backupState.serverId)
      {
        assert nodes[..i + 1][..i] == nodes[..i];
        if nodes[i].id == backupState.serverId {
          continue;
        }
        told := told + [nodes[i]];
      }
      assert nodes[..|nodes|] == nodes;
      backupState.primaryServerAddress := Election.SELF_WIN_IP;
    }

    /**
     * A first call contacts the nodes above, waits, and tells all the others and takes over exactly
     * when it has been answered by nobody; a later call does nothing.
     */
    method StartElection(r: Readings, timeout: int, ghost horizon: nat)
      returns (started: bool, contacted: seq<Node>, told: seq<Node>, last: nat)
      requires Monotone(r) && horizon > 0 && r.clock(horizon) - r.clock(0) >= timeout
      modifies this, backupState`primaryServerAddress
      ensures isElecting && started == !old(isElecting)
      ensures contacted ==
        if started then Higher(backupState.connectedBackupNodes, backupState.serverId) else []
      ensures started ==> Decides(r, timeout, last)
      ensures var victory := started && !r.ended(last);
        && told == (if victory then Others(backupState.connectedBackupNodes, backupState.serverId) else [])
        && backupState.primaryServerAddress
          == if victory then Election.SELF_WIN_IP else old(backupState.primaryServerAddress)
    {
      told, last := [], 0;
      started, contacted := Challenge();
      if started {
        var victory;
        victory, last := WaitForAnswer(r, timeout, horizon);
        if victory {
          told := DeclareVictory();
        }
      }
    }
  }

  // ---- the loops are the steps ----

  function Recipients(c: Election.Config, msgs: seq<Election.Msg>): seq<Node>
    requires forall m | m in msgs :: m.to < |c.nodes|
  {
    seq(|msgs|, k requires 0 <= k < |msgs| => assert msgs[k] in msgs; c.nodes[msgs[k].to])
  }

  /** The messages of a starting process go to exactly the nodes its loop contacts, in that order. */
  lemma {:induction false} ChallengesAreHigher(c: Election.Config, i: nat, now: nat, n: nat)
    requires i < |c.nodes| && n <= |c.nodes|
    ensures forall m | m in Election.Challenges(c, i, now, n) :: m.to < |c.nodes|
    ensures Recipients(c, Election.Challenges(c, i, now, n)) == Higher(c.nodes[..n], c.nodes[i].id)
  {
    if n > 0 {
      ChallengesAreHigher(c, i, now, n - 1);
      assert c.nodes[..n][..n - 1] == c.nodes[..n - 1];
    }
  }

  /** Before its turn `next` a declaring process has called every other node of the first `next`, and nobody else. */
  lemma {:induction false} CallsAreOthers(c: Election.Config, i: nat, next: nat)
    requires Election.Proper(c.nodes) && i < |c.nodes| && next <= |c.nodes|
    ensures |Others(c.nodes[..next], c.nodes[i].id)| == next - if i < next then 1 else 0
    ensures forall k | 0 <= k < next && k != i :: c.nodes[k] in Others(c.nodes[..next], c.nodes[i].id)
  {
    hide Others;
    if next > 0 {
      OthersStep(c.nodes, c.nodes[i].id, next - 1);
      CallsAreOthers(c, i, next - 1);
      assert next - 1 != i ==> c.nodes[next - 1].id != c.nodes[i].id;
    } else {
      NoOthers(c.nodes, c.nodes[i].id);
    }
  }

  lemma NoOthers(nodes: seq<Node>, id: int)
    ensures Others(nodes[..0], id) == []
  {}

  lemma OthersStep(nodes: seq<Node>, id: int, n: nat)
    requires n < |nodes|
    ensures Others(nodes[..n + 1], id) == Others(nodes[..n], id) + if nodes[n].id == id then [] else [nodes[n]]
  {
    assert nodes[..n + 1][..n] == nodes[..n];
  }

  /** What the loops contact is in list order: both go through the list once, node by node. */
  lemma {:induction false} LoopsGoInOrder(a: seq<Node>, b: seq<Node>, id: int)
    ensures Higher(a + b, id) == Higher(a, id) + Higher(b, id)
    ensures Others(a + b, id) == Others(a, id) + Others(b, id)
    decreases |b|
  {
    if b == [] {
      assert a + b == a;
      assert Higher(a, id) + [] == Higher(a, id) && Others(a, id) + [] == Others(a, id);
    } else {
      var front, last := b[..|b| - 1], b[|b| - 1];
      assert (a + b)[..|a + b| - 1] == a + front && (a + b)[|a + b| - 1] == last;
      LoopsGoInOrder(a, front, id);
      OneMore(Higher(a, id), Higher(front, id), if last.id <= id then [] else [last]);
      OneMore(Others(a, id), Others(front, id), if last.id == id then [] else [last]);
    }
  }

  lemma OneMore(a: seq<Node>, b: seq<Node>, c: seq<Node>)
    ensures (a + b) + c == a + (b + c)
  {}

  lemma {:induction false} NobodyLeftOut(nodes: seq<Node>, id: int)
    requires forall n | n in nodes :: n.id != id
    ensures Others(nodes, id) == nodes
  {
    if nodes != [] {
      var front, last := nodes[..|nodes| - 1], nodes[|nodes| - 1];
      assert nodes == front + [last] && last in nodes;
      assert forall n | n in front :: n in nodes;
      NobodyLeftOut(front, id);
    }
  }

  lemma RestHasOtherIds(nodes: seq<Node>, i: nat)
    requires Election.Proper(nodes) && i < |nodes|
    ensures forall n | n in nodes[..i] :: n.id != nodes[i].id
    ensures forall n | n in nodes[i + 1..] :: n.id != nodes[i].id
  {}

  /** With distinct ids a winner tells the whole list, in order, but for itself. */
  lemma OthersAreTheRest(nodes: seq<Node>, i: nat)
    requires Election.Proper(nodes) && i < |nodes|
    ensures Others(nodes, nodes[i].id) == nodes[..i] + nodes[i + 1..]
  {
    hide Others, Election.Proper;
    var id := nodes[i].id;
    var before, after := nodes[..i], nodes[i + 1..];
    RestHasOtherIds(nodes, i);
    assert nodes == (before + [nodes[i]]) + after;
    LoopsGoInOrder(before + [nodes[i]], after, id);
    LoopsGoInOrder(before, [nodes[i]], id);
    NobodyLeftOut(before, id);
    NobodyLeftOut(after, id);
    JustOne(nodes[i], id);
    assert before + [] == before;
  }

  lemma JustOne(n: Node, id: int)
    ensures Others([n], id) == if n.id == id then [] else [n]
    ensures Higher([n], id) == if n.id <= id then [] else [n]
  {
    assert [n][..0] == [];
  }

  lemma {:induction false} NobodyHigher(nodes: seq<Node>, id: int)
    ensures (forall n | n in nodes :: n.id <= id) ==> Higher(nodes, id) == []
    ensures (forall n | n in nodes :: n.id > id) ==> Higher(nodes, id) == nodes
  {
    if nodes != [] {
      var front, last := nodes[..|nodes| - 1], nodes[|nodes| - 1];
      assert nodes == front + [last] && last in nodes;
      NobodyHigher(front, id);
    }
  }

  lemma IdsAscend(nodes: seq<Node>, i: nat)
    requires Ascending(nodes) && i < |nodes|
    ensures forall n | n in nodes[..i + 1] :: n.id <= nodes[i].id
    ensures forall n | n in nodes[i + 1..] :: n.id > nodes[i].id
  {}

  /** On a list as a primary publishes it, in order of ids, a candidate challenges exactly those behind it, in order. */
  lemma HigherAreThoseBehind(nodes: seq<Node>, i: nat)
    requires Ascending(nodes) && i < |nodes|
    ensures Higher(nodes, nodes[i].id) == nodes[i + 1..]
  {
    hide Higher, Ascending;
    var id := nodes[i].id;
    var upTo, after := nodes[..i + 1], nodes[i + 1..];
    IdsAscend(nodes, i);
    assert nodes == upTo + after;
    LoopsGoInOrder(upTo, after, id);
    NobodyHigher(upTo, id);
    NobodyHigher(after, id);
    assert [] + after == after;
  }
}
