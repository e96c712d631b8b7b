/** What is guaranteed once the links between surviving processes have nothing left to hand up. */
module Dissemination {
  import opened Messages
  import opened System
  import FiniteSets
  import Quorum
  import Ring

  /** The links of the configuration are those of the ring. */
  ghost predicate OnRing(cfg: Config) {
    && cfg.n >= 2
    && forall p: nat, q: nat :: (p, q) in cfg.links <==> p < cfg.n && Ring.Adjacent(p, q, cfg.n)
  }

  /** The configuration of the program for these dependency lines. */
  ghost function RingConfig(deps: seq<seq<nat>>): Config
    requires |deps| >= 2
  {
    var n := |deps|;
    Config(n, deps, set p: nat, q: nat | p < n && q < n && Ring.Adjacent(p, q, n) :: (p, q))
  }

  lemma RingConfigIsOnRing(deps: seq<seq<nat>>)
    requires 2 <= |deps| <= 128
    requires forall p, i :: 0 <= p < |deps| && 0 <= i < |deps[p]| ==> deps[p][i] < |deps|
    ensures RingConfig(deps).Valid() && OnRing(RingConfig(deps)) && RingConfig(deps).deps == deps
  {
    forall p: nat, q: nat | p < |deps|
      ensures q in Ring.Connections(p, |deps|) ==> q < |deps|
    {}
  }

  ghost function Survivors(cfg: Config, s: State): set<nat> {
    set p | p in Ring.Everyone(cfg.n) && p !in s.crashed
  }

  ghost predicate MinorityCrashed(cfg: Config, s: State) {
    2 * (cfg.n - |Survivors(cfg, s)|) < cfg.n
  }

  /** How many processes the stress test may terminate. */
  function MaxTerminated(n: nat): int {
    if n % 2 == 1 then n / 2 else (n - 1) / 2
  }

  /** The stress test terminates up to as many processes as the guarantees below allow, and no more. */
  lemma StressTestLimit(cfg: Config, s: State)
    ensures MinorityCrashed(cfg, s) <==> |s.crashed * Ring.Everyone(cfg.n)| <= MaxTerminated(cfg.n)
  {
    var down, up := s.crashed * Ring.Everyone(cfg.n), Survivors(cfg, s);
    assert down !! up && down + up == Ring.Everyone(cfg.n);
    assert |down + up| == |down| + |up|;
  }

  /** Nothing issued between survivors is still to be handed up. */
  ghost predicate Quiet(cfg: Config, s: State)
    requires Shape(cfg, s)
  {
    forall p, q, i :: p in Survivors(cfg, s) && q in Survivors(cfg, s) && 0 <= i < |s.net[p][q].issued| ==>
      i in s.net[p][q].received
  }

  /** In a quiet state a holder has passed the key on to its surviving neighbours, and they know it. */
  lemma PassedOn(cfg: Config, s: State, p: nat, q: nat, k: Key)
    requires Inv(cfg, s) && Quiet(cfg, s)
    requires p in Survivors(cfg, s) && q in Survivors(cfg, s) && (p, q) in cfg.links
    requires k in s.procs[p].urb.pending
    ensures k in s.procs[q].urb.pending
    ensures k in s.procs[q].urb.delivered || p in Quorum.Acks(s.procs[q].urb.ack, k)
  {
    assert ChannelSound(cfg, s, p, q);
    assert Issued(s.net[p][q], k);
    var i :| 0 <= i < |s.net[p][q].issued| && s.net[p][q].issued[i].Id() == k;
    assert i in s.net[p][q].received;
  }

  /** From one surviving holder the key has reached every survivor. */
  lemma HolderReachesAll(cfg: Config, s: State, k: Key, p: nat)
    requires Inv(cfg, s) && OnRing(cfg) && Quiet(cfg, s) && MinorityCrashed(cfg, s)
    requires p in Survivors(cfg, s) && k in s.procs[p].urb.pending
    ensures forall q :: q in Survivors(cfg, s) ==> k in s.procs[q].urb.pending
  {
    var survivors := Survivors(cfg, s);
    var part := set q | q in survivors && k in s.procs[q].urb.pending;
    forall a, b | a in part && b in survivors && Ring.Adjacent(a, b, cfg.n)
      ensures b in part
    {
      PassedOn(cfg, s, a, b, k);
    }
    assert p in part;
    Ring.MinorityIsNoCut(cfg.n, |survivors|);
    Ring.NoCut(part, survivors, cfg.n);
  }

  /** A majority always contains a survivor. */
  lemma MajorityMeetsSurvivors(n: nat, holders: set<nat>, survivors: set<nat>) returns (p: nat)
    requires holders <= Ring.Everyone(n) && survivors <= Ring.Everyone(n)
    requires |holders| > n / 2 && 2 * (n - |survivors|) < n
    ensures p in holders && p in survivors
  {
    if holders !! survivors {
      Ring.RemovedSize(holders, survivors, n);
      assert false;
    }
    p :| p in holders && p in survivors;
  }

  /** Main result, uniform dissemination: once any process has delivered a message in uniform reliable
      broadcast, even one that crashed afterwards, every survivor of a minority crash gets it. */
  lemma UniformDissemination(cfg: Config, s: State, k: Key, p: nat)
    requires Inv(cfg, s) && OnRing(cfg) && Quiet(cfg, s) && MinorityCrashed(cfg, s)
    requires p < cfg.n && k in s.procs[p].urb.delivered
    ensures forall q :: q in Survivors(cfg, s) ==> k in s.procs[q].urb.pending
  {
    assert AcksSound(cfg, s, p, k);
    var near := NearHolders(cfg, s, p, k);
    var holder := MajorityMeetsSurvivors(cfg.n, near, Survivors(cfg, s));
    HolderReachesAll(cfg, s, k, holder);
  }

  ghost function SurvivingNeighborhood(cfg: Config, s: State, p: nat): set<nat> {
    set a | a in Survivors(cfg, s) && (a == p || (a, p) in cfg.links)
  }

  /** A survivor with a surviving majority around it delivers whatever the survivors hold. */
  lemma DeliversWithSurvivingMajority(cfg: Config, s: State, k: Key, p: nat)
    requires Inv(cfg, s) && Quiet(cfg, s) && p in Survivors(cfg, s)
    requires forall q :: q in Survivors(cfg, s) ==> k in s.procs[q].urb.pending
    requires |SurvivingNeighborhood(cfg, s, p)| > cfg.n / 2
    ensures k in s.procs[p].urb.delivered
  {
    assert AcksSound(cfg, s, p, k);
    if k !in s.procs[p].urb.delivered {
      var near, acks := SurvivingNeighborhood(cfg, s, p), Quorum.Acks(s.procs[p].urb.ack, k);
      forall a | a in near
        ensures a in acks
      {
        if a != p {
          PassedOn(cfg, s, a, p, k);
        }
      }
      FiniteSets.SubsetSize(near, acks);
      assert false;
    }
  }

  /** A minority crash does not by itself guarantee delivery. For a message that no crashed process
      ever held, a survivor delivers it exactly when the survivors around it are a majority of all. */
  lemma DeliveryCondition(cfg: Config, s: State, k: Key, p: nat, holder: nat)
    requires Inv(cfg, s) && OnRing(cfg) && Quiet(cfg, s) && MinorityCrashed(cfg, s)
    requires holder in Survivors(cfg, s) && k in s.procs[holder].urb.pending
    requires forall q :: q < cfg.n && q in s.crashed ==> k !in s.procs[q].urb.pending
    requires p in Survivors(cfg, s)
    ensures k in s.procs[p].urb.delivered <==> |SurvivingNeighborhood(cfg, s, p)| > cfg.n / 2
  {
    HolderReachesAll(cfg, s, k, holder);
    if k in s.procs[p].urb.delivered {
      assert AcksSound(cfg, s, p, k);
      assert NearHolders(cfg, s, p, k) == SurvivingNeighborhood(cfg, s, p);
    } else if |SurvivingNeighborhood(cfg, s, p)| > cfg.n / 2 {
      DeliversWithSurvivingMajority(cfg, s, k, p);
    }
  }
}
