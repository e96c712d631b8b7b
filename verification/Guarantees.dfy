/** What the whole stack guarantees in every reachable state: under loss, duplication and reordering on
    the network, retransmission, and crashes at any moment. */
module Guarantees {
  import opened Messages
  import AcceptedRuns
  import Causality
  import Completeness
  import Completion
  import Confluence
  import Continuation
  import Dissemination
  import Hearing
  import LossySystem
  import Program
  import RenderedRuns
  import System
  import Validator

  /** Transitive localized causal order. */
  lemma CausalOrderEverywhere(cfg: Config, s: LossySystem.State, chain: seq<Body>, p: nat)
    requires LossySystem.Reachable(cfg, s) && p < cfg.n
    requires Causality.Chain(cfg, LossySystem.Abs(cfg, s), chain)
    requires Event.Deliver(chain[|chain| - 1]) in s.procs[p].lcb.log
    ensures Causality.Before(s.procs[p].lcb.log, Event.Deliver(chain[0]), Event.Deliver(chain[|chain| - 1]))
  {
    LossySystem.ReachableInv(cfg, s);
    var log := s.procs[p].lcb.log;
    var j :| 0 <= j < |log| && log[j] == Event.Deliver(chain[|chain| - 1]);
    var i := Causality.CausalDelivery(cfg, LossySystem.Abs(cfg, s), chain, p, j);
  }

  /** No process could have delivered more of what it received: its clock is the greatest causally
      closed prefix, whatever the order of arrival was. */
  lemma ClockIsGreatest(cfg: Config, s: LossySystem.State, p: nat, c: seq<nat>)
    requires LossySystem.Reachable(cfg, s) && p < cfg.n && |c| == cfg.n
    requires Confluence.ClosedPrefix(cfg, c, System.Received(LossySystem.Abs(cfg, s), p))
    ensures Confluence.ClosedPrefix(cfg, s.procs[p].lcb.clock, System.Received(LossySystem.Abs(cfg, s), p))
    ensures forall o :: 0 <= o < cfg.n ==> c[o] <= s.procs[p].lcb.clock[o]
  {
    LossySystem.ReachableInv(cfg, s);
    var abs := LossySystem.Abs(cfg, s);
    assert System.UpperSound(cfg, abs, p);
    Confluence.ClockIsGreatestPrefix(cfg, s.history, s.procs[p].lcb, System.Received(abs, p), c);
  }

  /** Every delivery is of a message that its originator broadcast, and no message is delivered twice. */
  lemma NoCreationNoDuplication(cfg: Config, s: LossySystem.State, p: nat)
    requires LossySystem.Reachable(cfg, s) && p < cfg.n
    ensures var log := s.procs[p].lcb.log;
      && (forall j :: 0 <= j < |log| && log[j].Deliver? ==>
            log[j].body.originator < cfg.n && Event.Broadcast(log[j].body) in s.procs[log[j].body.originator].lcb.log)
      && forall i, j :: 0 <= i < j < |log| && log[i].Deliver? && log[j].Deliver? ==>
           log[i].body.Id() != log[j].body.Id()
  {
    LossySystem.ReachableInv(cfg, s);
    var abs, log := LossySystem.Abs(cfg, s), s.procs[p].lcb.log;
    forall j | 0 <= j < |log| && log[j].Deliver?
      ensures log[j].body.originator < cfg.n && Event.Broadcast(log[j].body) in s.procs[log[j].body.originator].lcb.log
    {
      Causality.EventInSequence(cfg, abs, p, j);
      Causality.BroadcastWasLogged(cfg, abs, log[j].body);
    }
    forall i, j | 0 <= i < j < |log| && log[i].Deliver? && log[j].Deliver?
      ensures log[i].body.Id() != log[j].body.Id()
    {
      Causality.NoDuplication(cfg, abs, p, i, j);
    }
  }

  /** The run passes the checker at every moment. */
  lemma EveryRunIsAccepted(cfg: Config, s: LossySystem.State)
    requires LossySystem.Reachable(cfg, s)
    ensures Validator.LogsRespectDependencies(
              AcceptedRuns.RenderDependencies(cfg),
              AcceptedRuns.RenderLogs(AcceptedRuns.Logs(LossySystem.Abs(cfg, s))))
    ensures var logs := AcceptedRuns.Logs(LossySystem.Abs(cfg, s));
      |logs| == cfg.n && (forall p :: 0 <= p < cfg.n ==> logs[p] == s.procs[p].lcb.log)
      && RenderedRuns.Respectful(cfg, logs)
  {
    LossySystem.ReachableInv(cfg, s);
    AcceptedRuns.LogsAccepted(cfg, LossySystem.Abs(cfg, s));
    RenderedRuns.RespectfulIff(cfg, AcceptedRuns.Logs(LossySystem.Abs(cfg, s)));
  }

  /** Uniform dissemination: a message that any process delivered in uniform reliable broadcast reaches
      every survivor of a minority crash once the survivors' links are idle. */
  lemma DeliveredReachesSurvivors(cfg: Config, s: LossySystem.State, k: Key, p: nat)
    requires LossySystem.Reachable(cfg, s) && LossySystem.SurvivorsIdle(cfg, s) && Dissemination.OnRing(cfg)
    requires Dissemination.MinorityCrashed(cfg, LossySystem.Abs(cfg, s))
    requires p < cfg.n && k in s.procs[p].urb.delivered
    ensures forall q :: 0 <= q < cfg.n && q !in s.crashed ==> k in s.procs[q].urb.pending
  {
    LossySystem.ReachableInv(cfg, s);
    Continuation.IdleIsQuiet(cfg, s);
    Dissemination.UniformDissemination(cfg, LossySystem.Abs(cfg, s), k, p);
    HeldBySurvivors(cfg, s, k);
  }

  lemma HeldBySurvivors(cfg: Config, s: LossySystem.State, k: Key)
    requires LossySystem.Shape(cfg, s)
    requires forall q :: q in Dissemination.Survivors(cfg, LossySystem.Abs(cfg, s)) ==> k in s.procs[q].urb.pending
    ensures forall q :: 0 <= q < cfg.n && q !in s.crashed ==> k in s.procs[q].urb.pending
  {
    forall q | 0 <= q < cfg.n && q !in s.crashed
      ensures k in s.procs[q].urb.pending
    {
      assert q in Dissemination.Survivors(cfg, LossySystem.Abs(cfg, s));
    }
  }

  /** A survivor surrounded by a surviving majority also delivers it. */
  lemma DeliveredWhereMajoritySurvives(cfg: Config, s: LossySystem.State, k: Key, p: nat, q: nat)
    requires LossySystem.Reachable(cfg, s) && LossySystem.SurvivorsIdle(cfg, s) && Dissemination.OnRing(cfg)
    requires Dissemination.MinorityCrashed(cfg, LossySystem.Abs(cfg, s))
    requires p < cfg.n && k in s.procs[p].urb.delivered
    requires q < cfg.n && q !in s.crashed
    requires |Dissemination.SurvivingNeighborhood(cfg, LossySystem.Abs(cfg, s), q)| > cfg.n / 2
    ensures k in s.procs[q].urb.delivered
  {
    LossySystem.ReachableInv(cfg, s);
    Continuation.IdleIsQuiet(cfg, s);
    var abs := LossySystem.Abs(cfg, s);
    Dissemination.UniformDissemination(cfg, abs, k, p);
    Dissemination.DeliversWithSurvivingMajority(cfg, abs, k, q);
  }

  /** Uniform reliable broadcast delivers a key at a process exactly when a copy of it was handed up
      there from a majority of the processes. */
  lemma DeliveredIffHeardFromMajority(cfg: Config, s: LossySystem.State, p: nat, k: Key)
    requires LossySystem.Reachable(cfg, s) && p < cfg.n
    ensures k in s.procs[p].urb.delivered
       <==> |Hearing.HeardFrom(cfg, LossySystem.Abs(cfg, s), p, k)| > cfg.n / 2
  {
    LossySystem.ReachableInv(cfg, s);
    Hearing.DeliveredIffHeard(cfg, LossySystem.Abs(cfg, s), p, k);
  }

  lemma IsSurvivor(cfg: Config, s: LossySystem.State, p: nat)
    requires LossySystem.Shape(cfg, s) && p < cfg.n && p !in s.crashed
    ensures p in Dissemination.Survivors(cfg, LossySystem.Abs(cfg, s))
  {}

  /** What a minority crash leaves of agreement: whether a survivor has delivered what some survivor
      holds depends only on who is left around it and which crashed processes it heard from. */
  lemma DeliveryAfterCrashes(cfg: Config, s: LossySystem.State, k: Key, p: nat, holder: nat)
    requires LossySystem.Reachable(cfg, s) && LossySystem.SurvivorsIdle(cfg, s) && Dissemination.OnRing(cfg)
    requires Dissemination.MinorityCrashed(cfg, LossySystem.Abs(cfg, s))
    requires holder < cfg.n && holder !in s.crashed && k in s.procs[holder].urb.pending
    requires p < cfg.n && p !in s.crashed
    ensures var abs := LossySystem.Abs(cfg, s);
      k in s.procs[p].urb.delivered
      <==> |Dissemination.SurvivingNeighborhood(cfg, abs, p) + Hearing.HeardFromCrashed(cfg, abs, p, k)| > cfg.n / 2
  {
    LossySystem.ReachableInv(cfg, s);
    Continuation.IdleIsQuiet(cfg, s);
    IsSurvivor(cfg, s, p);
    IsSurvivor(cfg, s, holder);
    Hearing.DeliveryConditionAfterCrashes(cfg, LossySystem.Abs(cfg, s), k, p, holder);
  }

  /** Without crashes, idle links mean that everyone has delivered everything. */
  lemma EverythingDelivered(cfg: Config, s: LossySystem.State, p: nat)
    requires LossySystem.Reachable(cfg, s) && LossySystem.SurvivorsIdle(cfg, s) && Dissemination.OnRing(cfg)
    requires s.crashed == {} && p < cfg.n
    ensures forall b :: b in s.history ==> Event.Deliver(b) in s.procs[p].lcb.log
    ensures forall o :: 0 <= o < cfg.n ==> s.procs[p].lcb.clock[o] == s.procs[o].next && s.procs[p].lcb.queues[o] == []
  {
    LossySystem.ReachableInv(cfg, s);
    Continuation.IdleIsQuiet(cfg, s);
    Completeness.FaultFreeCompleteness(cfg, LossySystem.Abs(cfg, s), p);
  }

  /** While nobody has crashed, every process can still broadcast all its messages and deliver all `m`
      messages of every process. */
  lemma EverythingCanBeDelivered(cfg: Config, m: nat, x: Program.State) returns (x': Program.State)
    requires Program.Valid(cfg, m) && Program.Reachable(cfg, m, x) && Dissemination.OnRing(cfg) && x.sys.crashed == {}
    ensures Program.Leads(cfg, m, x, x') && x.sys.history <= x'.sys.history && x'.sys.crashed == {}
    ensures forall p, b :: 0 <= p < cfg.n && b in x'.sys.history ==> Event.Deliver(b) in x'.sys.procs[p].lcb.log
    ensures forall p, o :: 0 <= p < cfg.n && 0 <= o < cfg.n ==> x'.sys.procs[p].lcb.clock[o] == m
  {
    x' := Completion.IdleIsPossible(cfg, m, x);
    Program.ReachableInSystem(cfg, m, x');
    forall p: nat | p < cfg.n
      ensures forall b :: b in x'.sys.history ==> Event.Deliver(b) in x'.sys.procs[p].lcb.log
      ensures forall o :: 0 <= o < cfg.n ==> x'.sys.procs[p].lcb.clock[o] == m
    {
      EverythingDelivered(cfg, x'.sys, p);
    }
  }
}
