/** Agreement on what the applications see: the deliveries in the logs. */
module LogAgreement {
  import opened Messages
  import opened System
  import Agreement
  import Causality
  import CausalOrder
  import Completeness
  import Confluence
  import Dissemination
  import LossySystem
  import Program
  import Transmission

  /** What one survivor's log delivers, every survivor's log delivers. */
  ghost predicate SurvivorLogsAgree(s: State) {
    forall b, p, q :: 0 <= p < |s.procs| && 0 <= q < |s.procs| && p !in s.crashed && q !in s.crashed ==>
      Event.Deliver(b) in s.procs[p].lcb.log ==> Event.Deliver(b) in s.procs[q].lcb.log
  }

  /** What any log delivers, even that of a crashed process, every survivor's log delivers. */
  ghost predicate LogsAgree(s: State) {
    forall b, p, q :: 0 <= p < |s.procs| && 0 <= q < |s.procs| && q !in s.crashed ==>
      Event.Deliver(b) in s.procs[p].lcb.log ==> Event.Deliver(b) in s.procs[q].lcb.log
  }

  // ------------------------------------------------------------------------------------------
  // Receiving the same is delivering the same
  // ------------------------------------------------------------------------------------------

  lemma ClosedInMore(cfg: Config, c: seq<nat>, received: set<Body>, more: set<Body>)
    requires cfg.Valid() && |c| == cfg.n && Confluence.ClosedPrefix(cfg, c, received) && received <= more
    ensures Confluence.ClosedPrefix(cfg, c, more)
  {
    forall o: nat, t: nat | o < cfg.n && t < c[o]
      ensures Confluence.Supported(cfg, c, more, Key(o, t))
    {
      assert Confluence.Supported(cfg, c, received, Key(o, t));
      var b :| b in received && b.Id() == Key(o, t) && cfg.Admits(b) && CausalOrder.DependenciesMet(cfg, c, b);
      assert b in more;
    }
  }

  lemma ClockOf(cfg: Config, s: State, p: nat, c: seq<nat>)
    requires Inv(cfg, s) && p < cfg.n && |c| == cfg.n && Confluence.ClosedPrefix(cfg, c, Received(s, p))
    ensures forall o :: 0 <= o < cfg.n ==> c[o] <= s.procs[p].lcb.clock[o]
  {
    assert UpperSound(cfg, s, p);
    Confluence.ClockIsGreatestPrefix(cfg, s.history, s.procs[p].lcb, Received(s, p), c);
  }

  lemma ClockIsClosed(cfg: Config, s: State, p: nat)
    requires Inv(cfg, s) && p < cfg.n
    ensures Confluence.ClosedPrefix(cfg, s.procs[p].lcb.clock, Received(s, p))
  {
    assert UpperSound(cfg, s, p);
    Confluence.ClockIsClosedPrefix(cfg, s.procs[p].lcb, Received(s, p));
  }

  /** Whoever has received all that `p` has received is not behind `p`. */
  lemma NotBehind(cfg: Config, s: State, p: nat, q: nat)
    requires Inv(cfg, s) && p < cfg.n && q < cfg.n && Received(s, p) <= Received(s, q)
    ensures forall o :: 0 <= o < cfg.n ==> s.procs[p].lcb.clock[o] <= s.procs[q].lcb.clock[o]
  {
    ClockIsClosed(cfg, s, p);
    ClosedInMore(cfg, s.procs[p].lcb.clock, Received(s, p), Received(s, q));
    ClockOf(cfg, s, q, s.procs[p].lcb.clock);
  }

  /** The log delivers exactly the messages that the clock counts. */
  lemma InLogIffCounted(cfg: Config, s: State, p: nat, b: Body)
    requires Inv(cfg, s) && p < cfg.n && b in s.history
    ensures Event.Deliver(b) in s.procs[p].lcb.log <==> b.seqNum < s.procs[p].lcb.clock[b.originator]
  {
    var log := s.procs[p].lcb.log;
    assert log[..|log|] == log;
    assert s.procs[p].lcb.clock[b.originator] == Delivered(log, b.originator) by {
      assert UpperSound(cfg, s, p);
    }
    if Event.Deliver(b) in log {
      var i :| 0 <= i < |log| && log[i] == Event.Deliver(b);
      Causality.EventInSequence(cfg, s, p, i);
      DeliveredAfter(log, i, |log|);
    }
    if b.seqNum < s.procs[p].lcb.clock[b.originator] {
      var i := Causality.EventOfCounted(cfg, s, p, |log|, b);
    }
  }

  lemma LoggedIsBroadcast(cfg: Config, s: State, p: nat, b: Body)
    requires Inv(cfg, s) && p < cfg.n && Event.Deliver(b) in s.procs[p].lcb.log
    ensures b in s.history && b.Id() in s.procs[p].urb.delivered
  {
    var log := s.procs[p].lcb.log;
    var i :| 0 <= i < |log| && log[i] == Event.Deliver(b);
    assert CausalOrder.OrderedLog(cfg, log, Received(s, p)) by {
      assert UpperSound(cfg, s, p);
    }
  }

  lemma ReceivedAlso(cfg: Config, s: State, p: nat, q: nat)
    requires Shape(cfg, s) && p < cfg.n && q < cfg.n && s.procs[p].urb.delivered <= s.procs[q].urb.delivered
    ensures Received(s, p) <= Received(s, q)
  {}

  /** Main result: where each survivor has delivered in the layer below what anyone has, every survivor's log
      has what any log has. */
  lemma AgreedLogs(cfg: Config, s: State)
    requires Inv(cfg, s)
    requires forall p, q :: 0 <= p < cfg.n && 0 <= q < cfg.n && q !in s.crashed ==>
               s.procs[p].urb.delivered <= s.procs[q].urb.delivered
    ensures LogsAgree(s)
  {
    forall b, p, q | 0 <= p < |s.procs| && 0 <= q < |s.procs| && q !in s.crashed
                     && Event.Deliver(b) in s.procs[p].lcb.log
      ensures Event.Deliver(b) in s.procs[q].lcb.log
    {
      LoggedIsBroadcast(cfg, s, p, b);
      ReceivedAlso(cfg, s, p, q);
      NotBehind(cfg, s, p, q);
      InLogIffCounted(cfg, s, p, b);
      InLogIffCounted(cfg, s, q, b);
    }
  }

  // ------------------------------------------------------------------------------------------
  // What a survivor broadcasts
  // ------------------------------------------------------------------------------------------

  /** All messages of the survivors, and what `q` delivered of the others. */
  ghost function Expected(cfg: Config, s: State, q: nat): seq<nat>
    requires Shape(cfg, s) && q < cfg.n
  {
    seq(cfg.n, o requires 0 <= o < cfg.n => if o in s.crashed then s.procs[q].lcb.clock[o] else s.procs[o].next)
  }

  lemma ClockWithinExpected(cfg: Config, s: State, q: nat)
    requires Inv(cfg, s) && q < cfg.n
    ensures forall o :: 0 <= o < cfg.n ==> s.procs[q].lcb.clock[o] <= Expected(cfg, s, q)[o]
  {
    Completeness.ClockWithinTotals(cfg, s, q);
  }

  /** A message asks for no more than its originator has delivered by now. */
  lemma AsksForDelivered(cfg: Config, s: State, b: Body, i: nat)
    requires Inv(cfg, s) && b in s.history && i < |b.vectorClock|
    ensures b.originator < cfg.n && i < |cfg.deps[b.originator]|
    ensures b.vectorClock[i] <= s.procs[b.originator].lcb.clock[cfg.deps[b.originator][i]]
  {
    var o := b.originator;
    var log := s.procs[o].lcb.log;
    Causality.BroadcastWasLogged(cfg, s, b);
    var j :| 0 <= j < |log| && log[j] == Event.Broadcast(b);
    Causality.BroadcastClock(cfg, s, o, j, b);
    DeliveredMonotone(log, j, |log|, cfg.deps[o][i]);
    assert log[..|log|] == log;
    assert UpperSound(cfg, s, o);
  }

  /** A survivor's message depends on expected messages only. */
  lemma SurvivorSupported(cfg: Config, s: State, q: nat, b: Body)
    requires Inv(cfg, s) && q < cfg.n && b in s.history && b.originator !in s.crashed
    requires forall o :: 0 <= o < cfg.n ==> s.procs[b.originator].lcb.clock[o] <= s.procs[q].lcb.clock[o]
    ensures CausalOrder.DependenciesMet(cfg, Expected(cfg, s, q), b)
  {
    ClockWithinExpected(cfg, s, q);
    forall i | 0 <= i < |b.vectorClock|
      ensures b.vectorClock[i] <= Expected(cfg, s, q)[cfg.deps[b.originator][i]]
    {
      AsksForDelivered(cfg, s, b, i);
    }
  }

  lemma DeliveredSupported(cfg: Config, s: State, q: nat, o: nat, t: nat)
    requires Inv(cfg, s) && q < cfg.n && o < cfg.n && t < s.procs[q].lcb.clock[o]
    ensures Confluence.Supported(cfg, Expected(cfg, s, q), Received(s, q), Key(o, t))
  {
    ClockIsClosed(cfg, s, q);
    ClockWithinExpected(cfg, s, q);
    assert Confluence.Supported(cfg, s.procs[q].lcb.clock, Received(s, q), Key(o, t));
    var b :| b in Received(s, q) && b.Id() == Key(o, t) && cfg.Admits(b)
      && CausalOrder.DependenciesMet(cfg, s.procs[q].lcb.clock, b);
    assert CausalOrder.DependenciesMet(cfg, Expected(cfg, s, q), b);
  }

  /** Everything that survivors broadcast has reached `q`, and `q` is behind no survivor. */
  ghost predicate CaughtUp(cfg: Config, s: State, q: nat)
    requires Shape(cfg, s) && q < cfg.n
  {
    && (forall b :: b in s.history && b.originator !in s.crashed ==> b.Id() in s.procs[q].urb.delivered)
    && forall p, o :: 0 <= p < cfg.n && p !in s.crashed && 0 <= o < cfg.n ==>
         s.procs[p].lcb.clock[o] <= s.procs[q].lcb.clock[o]
  }

  lemma ExpectedSupported(cfg: Config, s: State, q: nat, o: nat, t: nat)
    requires Inv(cfg, s) && q < cfg.n && CaughtUp(cfg, s, q) && o < cfg.n && t < Expected(cfg, s, q)[o]
    ensures Confluence.Supported(cfg, Expected(cfg, s, q), Received(s, q), Key(o, t))
  {
    if o in s.crashed {
      DeliveredSupported(cfg, s, q, o, t);
    } else {
      var b := Completeness.CountedMessage(cfg, s, o, t);
      SurvivorSupported(cfg, s, q, b);
      assert b in Received(s, q);
    }
  }

  /** Main result: the log of a survivor that has caught up has every message that a survivor broadcast. */
  lemma SurvivorsMessagesLogged(cfg: Config, s: State, q: nat, b: Body)
    requires Inv(cfg, s) && q < cfg.n && CaughtUp(cfg, s, q)
    requires b in s.history && b.originator !in s.crashed
    ensures Event.Deliver(b) in s.procs[q].lcb.log
  {
    forall o: nat, t: nat | o < cfg.n && t < Expected(cfg, s, q)[o]
      ensures Confluence.Supported(cfg, Expected(cfg, s, q), Received(s, q), Key(o, t))
    {
      ExpectedSupported(cfg, s, q, o, t);
    }
    ClockOf(cfg, s, q, Expected(cfg, s, q));
    assert b.seqNum < s.procs[b.originator].next;
    InLogIffCounted(cfg, s, q, b);
  }

  // ------------------------------------------------------------------------------------------
  // The first message of all
  // ------------------------------------------------------------------------------------------

  lemma NothingBefore(history: seq<Body>, k: Key)
    ensures !Known(history, 0, k)
  {}

  /** The first message that was broadcast depends on nothing. */
  lemma FirstIsIndependent(cfg: Config, s: State)
    requires Inv(cfg, s) && s.history != []
    ensures s.history[0].seqNum == 0
    ensures forall i :: 0 <= i < |s.history[0].vectorClock| ==> s.history[0].vectorClock[i] == 0
  {
    var b := s.history[0];
    assert PastKnown(cfg, s.history, 0, b);
    NothingBefore(s.history, Key(b.originator, 0));
    forall i | 0 <= i < |b.vectorClock|
      ensures b.vectorClock[i] == 0
    {
      NothingBefore(s.history, Key(cfg.deps[b.originator][i], 0));
    }
  }

  /** So whoever receives it delivers it. */
  lemma FirstIsLogged(cfg: Config, s: State, p: nat)
    requires Inv(cfg, s) && s.history != [] && p < cfg.n && s.history[0].Id() in s.procs[p].urb.delivered
    ensures Event.Deliver(s.history[0]) in s.procs[p].lcb.log
  {
    var b := s.history[0];
    FirstIsIndependent(cfg, s);
    assert b in s.history && b in Received(s, p);
    var c: seq<nat> := seq(cfg.n, o requires 0 <= o < cfg.n => if o == b.originator then 1 else 0);
    assert CausalOrder.DependenciesMet(cfg, c, b);
    forall o: nat, t: nat | o < cfg.n && t < c[o]
      ensures Confluence.Supported(cfg, c, Received(s, p), Key(o, t))
    {
      assert b.Id() == Key(o, t);
    }
    ClockOf(cfg, s, p, c);
    assert c[b.originator] == 1;
    InLogIffCounted(cfg, s, p, b);
  }

  // ------------------------------------------------------------------------------------------
  // The condition
  // ------------------------------------------------------------------------------------------

  lemma RestLogsAgree(cfg: Config, m: nat, crashed: set<nat>, x: Program.State)
    requires Dissemination.OnRing(cfg) && Agreement.Minority(cfg, crashed) && Agreement.MajorityAroundAll(cfg, crashed)
    requires Agreement.AtRestAfter(cfg, m, crashed, x)
    ensures LogsAgree(LossySystem.Abs(cfg, x.sys)) && SurvivorLogsAgree(LossySystem.Abs(cfg, x.sys))
  {
    Program.ReachableGood(cfg, m, x);
    Agreement.RestAgrees(cfg, m, crashed, x);
    AgreedLogs(cfg, LossySystem.Abs(cfg, x.sys));
  }

  lemma SomeLogDisagreement(cfg: Config, m: nat, crashed: set<nat>) returns (x: Program.State)
    requires Program.Valid(cfg, m) && m >= 1 && Dissemination.OnRing(cfg) && Agreement.Minority(cfg, crashed)
    requires !Agreement.MajorityAroundAll(cfg, crashed)
    ensures Agreement.AtRestAfter(cfg, m, crashed, x)
    ensures !SurvivorLogsAgree(LossySystem.Abs(cfg, x.sys)) && !LogsAgree(LossySystem.Abs(cfg, x.sys))
  {
    var p, q;
    x, p, q := Agreement.SomeDisagreement(cfg, m, crashed);
    Program.ReachableGood(cfg, m, x);
    var s := LossySystem.Abs(cfg, x.sys);
    FirstIsLogged(cfg, s, p);
    if Event.Deliver(s.history[0]) in s.procs[q].lcb.log {
      LoggedIsBroadcast(cfg, s, q, s.history[0]);
      assert false;
    }
  }

  /** Main result: after a minority crash, the survivors' logs are sure to deliver the same messages exactly
      when each survivor still has a majority of all processes around it. The same condition decides
      whether they are sure to deliver what is in the log of a crashed process. */
  lemma LogAgreementIff(cfg: Config, m: nat, crashed: set<nat>)
    requires Program.Valid(cfg, m) && m >= 1 && Dissemination.OnRing(cfg) && Agreement.Minority(cfg, crashed)
    ensures Agreement.MajorityAroundAll(cfg, crashed) <==>
            forall x :: Agreement.AtRestAfter(cfg, m, crashed, x) ==> SurvivorLogsAgree(LossySystem.Abs(cfg, x.sys))
    ensures Agreement.MajorityAroundAll(cfg, crashed) <==>
            forall x :: Agreement.AtRestAfter(cfg, m, crashed, x) ==> LogsAgree(LossySystem.Abs(cfg, x.sys))
  {
    if Agreement.MajorityAroundAll(cfg, crashed) {
      forall x | Agreement.AtRestAfter(cfg, m, crashed, x)
        ensures LogsAgree(LossySystem.Abs(cfg, x.sys)) && SurvivorLogsAgree(LossySystem.Abs(cfg, x.sys))
      {
        RestLogsAgree(cfg, m, crashed, x);
      }
    } else {
      var x := SomeLogDisagreement(cfg, m, crashed);
    }
  }

  lemma RestCaughtUp(cfg: Config, s: LossySystem.State, q: nat)
    requires Transmission.Good(cfg, s) && LossySystem.SurvivorsIdle(cfg, s) && Dissemination.OnRing(cfg)
    requires Agreement.Minority(cfg, s.crashed) && Agreement.MajorityAroundAll(cfg, s.crashed)
    requires q < cfg.n && q !in s.crashed
    ensures CaughtUp(cfg, LossySystem.Abs(cfg, s), q)
  {
    var abs := LossySystem.Abs(cfg, s);
    Agreement.MajorityGivesAgreement(cfg, s);
    Agreement.ComesToRest(cfg, s);
    Agreement.AroundSurvivor(cfg, s, q);
    forall b | b in abs.history && b.originator !in abs.crashed
      ensures b.Id() in abs.procs[q].urb.delivered
    {
      ReachesSurvivor(cfg, abs, q, b);
    }
    forall p, o | 0 <= p < cfg.n && p !in abs.crashed && 0 <= o < cfg.n
      ensures abs.procs[p].lcb.clock[o] <= abs.procs[q].lcb.clock[o]
    {
      ReceivedAlso(cfg, abs, p, q);
      NotBehind(cfg, abs, p, q);
    }
  }

  /** What a survivor broadcast is held by it, so it reaches everyone. */
  lemma ReachesSurvivor(cfg: Config, s: State, q: nat, b: Body)
    requires Agreement.AtRest(cfg, s) && b in s.history && b.originator !in s.crashed
    requires q in Dissemination.Survivors(cfg, s) && |Dissemination.SurvivingNeighborhood(cfg, s, q)| > cfg.n / 2
    ensures b.Id() in s.procs[q].urb.delivered
  {
    assert b.seqNum < s.procs[b.originator].next && b.originator < cfg.n;
    assert b.Id() in s.procs[b.originator].urb.pending;
    Dissemination.HolderReachesAll(cfg, s, b.Id(), b.originator);
    Dissemination.DeliversWithSurvivingMajority(cfg, s, b.Id(), q);
  }

  /** Main result: at rest after a minority crash that leaves a majority around each survivor, every survivor
      has delivered all `m` messages of every survivor. */
  lemma SurvivorsComplete(cfg: Config, m: nat, crashed: set<nat>, x: Program.State, q: nat)
    requires Dissemination.OnRing(cfg) && Agreement.Minority(cfg, crashed) && Agreement.MajorityAroundAll(cfg, crashed)
    requires Agreement.AtRestAfter(cfg, m, crashed, x) && q < cfg.n && q !in crashed
    ensures forall b :: b in x.sys.history && b.originator !in crashed ==> Event.Deliver(b) in x.sys.procs[q].lcb.log
    ensures forall o :: 0 <= o < cfg.n && o !in crashed ==> x.sys.procs[q].lcb.clock[o] == m
  {
    Program.ReachableGood(cfg, m, x);
    var s := LossySystem.Abs(cfg, x.sys);
    RestCaughtUp(cfg, x.sys, q);
    forall b | b in x.sys.history && b.originator !in crashed
      ensures Event.Deliver(b) in x.sys.procs[q].lcb.log
    {
      SurvivorsMessagesLogged(cfg, s, q, b);
    }
    forall o | 0 <= o < cfg.n && o !in crashed
      ensures x.sys.procs[q].lcb.clock[o] == m
    {
      AllOfSurvivor(cfg, s, q, o);
    }
  }

  lemma AllOfSurvivor(cfg: Config, s: State, q: nat, o: nat)
    requires Inv(cfg, s) && q < cfg.n && CaughtUp(cfg, s, q) && o < cfg.n && o !in s.crashed
    ensures s.procs[q].lcb.clock[o] == s.procs[o].next
  {
    Completeness.ClockWithinTotals(cfg, s, q);
    if s.procs[q].lcb.clock[o] < s.procs[o].next {
      var b := Completeness.CountedMessage(cfg, s, o, s.procs[q].lcb.clock[o]);
      SurvivorsMessagesLogged(cfg, s, q, b);
      InLogIffCounted(cfg, s, q, b);
      assert false;
    }
  }
}
