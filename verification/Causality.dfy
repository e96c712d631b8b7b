/** Safety of localized causal broadcast, as a statement about the logs of any reachable state. */
module Causality {
  import opened Messages
  import opened System
  import CausalOrder
  import Invariants

  /** The log contains the first event before the second. */
  ghost predicate Before(log: seq<Event>, first: Event, second: Event) {
    exists i, j :: 0 <= i < j < |log| && log[i] == first && log[j] == second
  }

  /** `m2` depends directly on `m1`: an earlier message of the same process, or one that a process
      affecting the originator of `m2` had sent and that was delivered before `m2` was broadcast. */
  ghost predicate Precedes(cfg: Config, s: State, m1: Body, m2: Body)
    requires Shape(cfg, s)
  {
    && m1 in s.history && m2 in s.history
    && (|| (m1.originator == m2.originator && m1.seqNum < m2.seqNum)
        || (&& m1.originator in cfg.deps[m2.originator]
            && Before(s.procs[m2.originator].lcb.log, Event.Deliver(m1), Event.Broadcast(m2))))
  }

  /** Each message of the chain depends directly on the one before it. */
  ghost predicate Chain(cfg: Config, s: State, chain: seq<Body>)
    requires Shape(cfg, s)
  {
    |chain| >= 2 && forall i :: 0 <= i < |chain| - 1 ==> Precedes(cfg, s, chain[i], chain[i + 1])
  }

  /** Every event in a log is of a broadcast message and continues the numbering. */
  lemma EventInSequence(cfg: Config, s: State, p: nat, j: nat)
    requires Inv(cfg, s) && p < cfg.n && j < |s.procs[p].lcb.log|
    ensures var log := s.procs[p].lcb.log; var b := log[j].body;
      && b in s.history && b.originator < cfg.n
      && (log[j].Broadcast? ==> b.originator == p && b.seqNum == Broadcasts(log[..j]))
      && (log[j].Deliver? ==> b.seqNum == Delivered(log[..j], b.originator))
  {
    assert UpperSound(cfg, s, p);
  }

  /** A delivery comes in sequence and after what the vector clock asks for. */
  lemma DeliveryMayFollow(cfg: Config, s: State, p: nat, j: nat, m: Body)
    requires Inv(cfg, s) && p < cfg.n && j < |s.procs[p].lcb.log| && s.procs[p].lcb.log[j] == Event.Deliver(m)
    ensures m in s.history && CausalOrder.MayFollow(cfg, s.procs[p].lcb.log[..j], m)
  {
    assert UpperSound(cfg, s, p);
  }

  /** The vector clock of a broadcast is what its originator had delivered by then. */
  lemma BroadcastClock(cfg: Config, s: State, p: nat, j: nat, m: Body)
    requires Inv(cfg, s) && p < cfg.n && j < |s.procs[p].lcb.log| && s.procs[p].lcb.log[j] == Event.Broadcast(m)
    ensures BroadcastAfter(cfg, s.procs[p].lcb.log[..j], p, m)
  {
    assert UpperSound(cfg, s, p);
  }

  lemma EventOfCounted(cfg: Config, s: State, p: nat, j: nat, m: Body) returns (i: nat)
    requires Inv(cfg, s) && p < cfg.n && m in s.history && j <= |s.procs[p].lcb.log|
    requires m.seqNum < Delivered(s.procs[p].lcb.log[..j], m.originator)
    ensures i < j && s.procs[p].lcb.log[i] == Event.Deliver(m)
  {
    var log := s.procs[p].lcb.log;
    assert CausalOrder.OrderedLog(cfg, log, Received(s, p)) by {
      assert UpperSound(cfg, s, p);
    }
    CausalOrder.OrderedPrefix(cfg, log, Received(s, p), j);
    i := CausalOrder.DeliveredEvent(cfg, log[..j], Received(s, p), m.originator, m.seqNum);
    assert log[..j][i] == log[i];
    EventInSequence(cfg, s, p, i);
    Invariants.SameKeySameMessage(cfg, s, log[i].body, m);
  }

  /** What was delivered before a broadcast is counted in the vector clock of the broadcast. */
  lemma ClockCountsDependency(cfg: Config, s: State, m1: Body, m2: Body) returns (x: nat)
    requires Inv(cfg, s) && m2 in s.history
    requires m1.originator in cfg.deps[m2.originator]
    requires Before(s.procs[m2.originator].lcb.log, Event.Deliver(m1), Event.Broadcast(m2))
    ensures x < |cfg.deps[m2.originator]| == |m2.vectorClock| && cfg.deps[m2.originator][x] == m1.originator
    ensures m1.seqNum < m2.vectorClock[x]
  {
    var log := s.procs[m2.originator].lcb.log;
    var i, j :| 0 <= i < j < |log| && log[i] == Event.Deliver(m1) && log[j] == Event.Broadcast(m2);
    x :| 0 <= x < |cfg.deps[m2.originator]| && cfg.deps[m2.originator][x] == m1.originator;
    EventInSequence(cfg, s, m2.originator, i);
    BroadcastClock(cfg, s, m2.originator, j, m2);
    DeliveredAfter(log, i, j);
  }

  lemma PrecedesDelivered(cfg: Config, s: State, m1: Body, m2: Body, p: nat, j: nat) returns (i: nat)
    requires Inv(cfg, s) && Precedes(cfg, s, m1, m2) && p < cfg.n
    requires j < |s.procs[p].lcb.log| && s.procs[p].lcb.log[j] == Event.Deliver(m2)
    ensures i < j && s.procs[p].lcb.log[i] == Event.Deliver(m1)
  {
    DeliveryMayFollow(cfg, s, p, j, m2);
    if !(m1.originator == m2.originator && m1.seqNum < m2.seqNum) {
      var x := ClockCountsDependency(cfg, s, m1, m2);
    }
    i := EventOfCounted(cfg, s, p, j, m1);
  }

  /** Main result: a process delivers a message only after everything that the message depends on,
      through any number of intermediate messages and processes. */
  lemma {:induction false} CausalDelivery(cfg: Config, s: State, chain: seq<Body>, p: nat, j: nat) returns (i: nat)
    requires Inv(cfg, s) && Chain(cfg, s, chain) && p < cfg.n
    requires j < |s.procs[p].lcb.log| && s.procs[p].lcb.log[j] == Event.Deliver(chain[|chain| - 1])
    ensures i < j && s.procs[p].lcb.log[i] == Event.Deliver(chain[0])
    decreases |chain|
  {
    var last := |chain| - 1;
    i := PrecedesDelivered(cfg, s, chain[last - 1], chain[last], p, j);
    if last > 1 {
      i := CausalDelivery(cfg, s, chain[..last], p, i);
    }
  }

  /** No creation and no disagreement: what any process holds, sends or delivers under a key is the
      message that the originator broadcast under it. */
  lemma OneContentPerKey(cfg: Config, s: State, p: nat, q: nat, i: nat, r: nat, j: nat)
    requires Inv(cfg, s) && p < cfg.n && q < cfg.n && r < cfg.n
    requires i < |s.net[p][q].issued|
    requires j < |s.procs[r].lcb.log|
    requires s.net[p][q].issued[i].Id() == s.procs[r].lcb.log[j].body.Id()
    ensures s.net[p][q].issued[i] == s.procs[r].lcb.log[j].body
    ensures s.net[p][q].issued[i].originator < cfg.n
    ensures Event.Broadcast(s.net[p][q].issued[i]) in s.procs[s.net[p][q].issued[i].originator].lcb.log
  {
    assert ChannelSound(cfg, s, p, q);
    assert UpperSound(cfg, s, r);
    var a, b := s.net[p][q].issued[i], s.procs[r].lcb.log[j].body;
    assert b in s.history;
    Invariants.SameKeySameMessage(cfg, s, a, b);
    BroadcastWasLogged(cfg, s, a);
  }

  lemma {:induction false} BroadcastEvent(log: seq<Event>, t: nat) returns (i: nat)
    requires t < Broadcasts(log)
    ensures i < |log| && log[i].Broadcast? && Broadcasts(log[..i]) == t
    decreases |log|
  {
    i := |log| - 1;
    if t < Broadcasts(log[..i]) {
      var front := log[..i];
      i := BroadcastEvent(front, t);
      assert front[..i] == log[..i];
    }
  }

  lemma BroadcastWasLogged(cfg: Config, s: State, b: Body)
    requires Inv(cfg, s) && b in s.history
    ensures Event.Broadcast(b) in s.procs[b.originator].lcb.log
  {
    assert UpperSound(cfg, s, b.originator);
    var log := s.procs[b.originator].lcb.log;
    var i := BroadcastEvent(log, b.seqNum);
    Invariants.SameKeySameMessage(cfg, s, log[i].body, b);
  }

  /** URB delivers a key at most once at each process, and LCB a message at most once: no log has the
      same delivery twice. */
  lemma NoDuplication(cfg: Config, s: State, p: nat, i: nat, j: nat)
    requires Inv(cfg, s) && p < cfg.n && i < j < |s.procs[p].lcb.log|
    requires s.procs[p].lcb.log[i].Deliver? && s.procs[p].lcb.log[j].Deliver?
    ensures s.procs[p].lcb.log[i].body.Id() != s.procs[p].lcb.log[j].body.Id()
  {
    EventInSequence(cfg, s, p, i);
    EventInSequence(cfg, s, p, j);
    DeliveredAfter(s.procs[p].lcb.log, i, j);
  }
}
