/** Exactly when uniform reliable broadcast delivers: when a message was heard from a majority. */
module Hearing {
  import opened Messages
  import opened Protocol
  import opened System
  import Dissemination
  import FiniteSets
  import Invariants
  import Quorum
  import Ring

  /** `p` was handed a copy of key `k` that came from `a`. */
  ghost predicate Heard(s: State, a: nat, p: nat, k: Key)
    requires a < |s.net| && p < |s.net[a]|
  {
    exists i :: i in s.net[a][p].received && i < |s.net[a][p].issued| && s.net[a][p].issued[i].Id() == k
  }

  /** The processes whose copy reached `p`; a holder has also heard from itself. */
  ghost function HeardFrom(cfg: Config, s: State, p: nat, k: Key): set<nat>
    requires Shape(cfg, s) && p < cfg.n
  {
    set a | a in Ring.Everyone(cfg.n) && ((a == p && k in s.procs[p].urb.pending) || Heard(s, a, p, k))
  }

  /** Acknowledgements were really heard, and a delivery saw a majority of them. */
  ghost predicate AcksHeard(cfg: Config, s: State, p: nat, k: Key)
    requires Shape(cfg, s) && p < cfg.n
  {
    && Quorum.Acks(s.procs[p].urb.ack, k) <= HeardFrom(cfg, s, p, k)
    && (k in s.procs[p].urb.delivered ==> |HeardFrom(cfg, s, p, k)| > cfg.n / 2)
  }

  ghost predicate HearingInv(cfg: Config, s: State)
    requires Shape(cfg, s)
  {
    forall p, k :: 0 <= p < cfg.n ==> AcksHeard(cfg, s, p, k)
  }

  lemma StartHearing(cfg: Config, s: State)
    requires Start(cfg, s)
    ensures HearingInv(cfg, s)
  {}

  ghost predicate ChannelGrows(c: Channel, c': Channel) {
    c.issued <= c'.issued && c.received <= c'.received
  }

  lemma HeardGrows(s: State, s': State, a: nat, p: nat, k: Key)
    requires a < |s.net| && p < |s.net[a]| && a < |s'.net| && p < |s'.net[a]|
    requires ChannelGrows(s.net[a][p], s'.net[a][p]) && Heard(s, a, p, k)
    ensures Heard(s', a, p, k)
  {
    var i :| i in s.net[a][p].received && i < |s.net[a][p].issued| && s.net[a][p].issued[i].Id() == k;
    assert s'.net[a][p].issued[i] == s.net[a][p].issued[i];
  }

  lemma HeardFromGrows(cfg: Config, s: State, s': State, p: nat, k: Key)
    requires Shape(cfg, s) && Shape(cfg, s') && p < cfg.n
    requires forall a :: 0 <= a < cfg.n ==> ChannelGrows(s.net[a][p], s'.net[a][p])
    requires s.procs[p].urb.pending <= s'.procs[p].urb.pending
    ensures HeardFrom(cfg, s, p, k) <= HeardFrom(cfg, s', p, k)
    ensures |HeardFrom(cfg, s, p, k)| <= |HeardFrom(cfg, s', p, k)|
  {
    forall a | a in HeardFrom(cfg, s, p, k)
      ensures a in HeardFrom(cfg, s', p, k)
    {
      if Heard(s, a, p, k) {
        HeardGrows(s, s', a, p, k);
      }
    }
    FiniteSets.SubsetSize(HeardFrom(cfg, s, p, k), HeardFrom(cfg, s', p, k));
  }

  lemma BroadcastHearing(cfg: Config, s: State, s': State, p: nat)
    requires Inv(cfg, s) && HearingInv(cfg, s) && Shape(cfg, s') && BroadcastStep(cfg, s, s', p)
    ensures HearingInv(cfg, s')
  {
    Invariants.BroadcastDeliversNothing(cfg, s, p);
    forall q, k | 0 <= q < cfg.n
      ensures AcksHeard(cfg, s', q, k)
    {
      AcksKept(cfg, s, s', q, k);
    }
  }

  /** What only relays and sends leaves the acknowledgements within what was handed up. */
  lemma AcksKept(cfg: Config, s: State, s': State, p: nat, k: Key)
    requires Shape(cfg, s) && Shape(cfg, s') && p < cfg.n && AcksHeard(cfg, s, p, k)
    requires forall a :: 0 <= a < cfg.n ==> ChannelGrows(s.net[a][p], s'.net[a][p])
    requires s.procs[p].urb.pending <= s'.procs[p].urb.pending
    requires s'.procs[p].urb.delivered == s.procs[p].urb.delivered
    requires Quorum.Acks(s'.procs[p].urb.ack, k) <= Quorum.Acks(s.procs[p].urb.ack, k) + {p}
    requires p in Quorum.Acks(s'.procs[p].urb.ack, k) - Quorum.Acks(s.procs[p].urb.ack, k) ==>
      p in HeardFrom(cfg, s', p, k)
    ensures AcksHeard(cfg, s', p, k)
  {
    HeardFromGrows(cfg, s, s', p, k);
  }

  lemma ChannelsGrow(cfg: Config, s: State, s': State, p: nat, q: nat, i: nat)
    requires Shape(cfg, s) && Shape(cfg, s') && ReceiveStep(cfg, s, s', p, q, i)
    ensures forall a, c :: 0 <= a < cfg.n && 0 <= c < cfg.n ==> ChannelGrows(s.net[a][c], s'.net[a][c])
    ensures Heard(s', p, q, s.net[p][q].issued[i].Id())
  {
    var mid := HandUp(s.net, p, q, i);
    forall a, c | 0 <= a < cfg.n && 0 <= c < cfg.n
      ensures ChannelGrows(s.net[a][c], s'.net[a][c])
    {
      assert ChannelGrows(s.net[a][c], mid[a][c]) && ChannelGrows(mid[a][c], s'.net[a][c]);
    }
    assert i in mid[p][q].received && mid[p][q].issued[i] == s.net[p][q].issued[i];
    assert s'.net[p][q].issued[i] == s.net[p][q].issued[i];
  }

  /** The received key at the receiver. */
  lemma ReceivedKeyHeard(cfg: Config, s: State, s': State, p: nat, q: nat, i: nat, k: Key)
    requires Invariants.Reception(cfg, s, s', p, q, i) && k == s.net[p][q].issued[i].Id()
    requires AcksHeard(cfg, s, q, k) && Heard(s', p, q, k)
    requires HeardFrom(cfg, s, q, k) <= HeardFrom(cfg, s', q, k)
    requires |HeardFrom(cfg, s, q, k)| <= |HeardFrom(cfg, s', q, k)|
    ensures AcksHeard(cfg, s', q, k)
  {
    var st, heard := s.procs[q].urb, HeardFrom(cfg, s', q, k);
    Invariants.ReactAcks(cfg.n, q, st, p, k);
    Invariants.ReceptionRecorded(cfg, s, s', p, q, i);
    assert p in heard && q in heard;
    var acks := Quorum.Acks(st.ack, k);
    FiniteSets.SubsetSize(acks + {p}, heard);
    FiniteSets.SubsetSize(acks + {p} + {q}, heard);
  }

  lemma ReceiveHearing(cfg: Config, s: State, s': State, p: nat, q: nat, i: nat)
    requires Invariants.Reception(cfg, s, s', p, q, i) && HearingInv(cfg, s)
    ensures HearingInv(cfg, s')
  {
    ChannelsGrow(cfg, s, s', p, q, i);
    var received := s.net[p][q].issued[i].Id();
    Invariants.ReactAcks(cfg.n, q, s.procs[q].urb, p, received);
    forall a, k | 0 <= a < cfg.n
      ensures AcksHeard(cfg, s', a, k)
    {
      assert AcksHeard(cfg, s, a, k);
      HeardFromGrows(cfg, s, s', a, k);
      if a == q && k == received {
        ReceivedKeyHeard(cfg, s, s', p, q, i, k);
      }
    }
  }

  lemma NextHearing(cfg: Config, s: State, s': State)
    requires Inv(cfg, s) && HearingInv(cfg, s) && Next(cfg, s, s')
    ensures HearingInv(cfg, s')
  {
    if p :| BroadcastStep(cfg, s, s', p) {
      BroadcastHearing(cfg, s, s', p);
    } else if p, q, i :| ReceiveStep(cfg, s, s', p, q, i) {
      Invariants.IsReception(cfg, s, s', p, q, i);
      ReceiveHearing(cfg, s, s', p, q, i);
    } else {
      forall p, k | 0 <= p < cfg.n
        ensures AcksHeard(cfg, s', p, k)
      {
        assert AcksHeard(cfg, s, p, k);
        HeardFromGrows(cfg, s, s', p, k);
      }
    }
  }

  lemma UndeliveredHeard(cfg: Config, s: State, p: nat, k: Key)
    requires Inv(cfg, s) && p < cfg.n && k !in s.procs[p].urb.delivered
    ensures |HeardFrom(cfg, s, p, k)| <= cfg.n / 2
  {
    assert AcksSound(cfg, s, p, k);
    var acks := Quorum.Acks(s.procs[p].urb.ack, k);
    forall a | a in HeardFrom(cfg, s, p, k)
      ensures a in acks && k in s.procs[p].urb.pending
    {
      assert ChannelSound(cfg, s, a, p);
    }
    FiniteSets.SubsetSize(HeardFrom(cfg, s, p, k), acks);
    if k !in s.procs[p].urb.pending {
      assert HeardFrom(cfg, s, p, k) == {};
    }
  }

  /** Main result: a process has delivered a key exactly when it has heard it from a majority. */
  lemma DeliveredIffHeard(cfg: Config, s: State, p: nat, k: Key)
    requires Inv(cfg, s) && HearingInv(cfg, s) && p < cfg.n
    ensures k in s.procs[p].urb.delivered <==> |HeardFrom(cfg, s, p, k)| > cfg.n / 2
  {
    assert AcksHeard(cfg, s, p, k);
    if k !in s.procs[p].urb.delivered {
      UndeliveredHeard(cfg, s, p, k);
    }
  }

  /** Crashed processes that got their copy through to `p` before they stopped. */
  ghost function HeardFromCrashed(cfg: Config, s: State, p: nat, k: Key): set<nat>
    requires Shape(cfg, s) && p < cfg.n
  {
    HeardFrom(cfg, s, p, k) * s.crashed
  }

  lemma HeardWhenQuiet(cfg: Config, s: State, p: nat, k: Key, a: nat)
    requires Inv(cfg, s) && Dissemination.Quiet(cfg, s) && p in Dissemination.Survivors(cfg, s)
    requires forall q :: q in Dissemination.Survivors(cfg, s) ==> k in s.procs[q].urb.pending
    requires a in Dissemination.Survivors(cfg, s)
    ensures a in HeardFrom(cfg, s, p, k) <==> a in Dissemination.SurvivingNeighborhood(cfg, s, p)
  {
    assert ChannelSound(cfg, s, a, p);
    if (a, p) in cfg.links {
      assert Issued(s.net[a][p], k);
      var i :| 0 <= i < |s.net[a][p].issued| && s.net[a][p].issued[i].Id() == k;
      assert i in s.net[a][p].received;
    }
  }

  /** Main result: in a quiet state after a minority crash, a survivor has delivered what some survivor
      holds exactly when the survivors around it, together with the crashed processes it heard from in
      time, are a majority of all. */
  lemma DeliveryConditionAfterCrashes(cfg: Config, s: State, k: Key, p: nat, holder: nat)
    requires Inv(cfg, s) && HearingInv(cfg, s)
    requires Dissemination.OnRing(cfg) && Dissemination.Quiet(cfg, s) && Dissemination.MinorityCrashed(cfg, s)
    requires holder in Dissemination.Survivors(cfg, s) && k in s.procs[holder].urb.pending
    requires p in Dissemination.Survivors(cfg, s)
    ensures k in s.procs[p].urb.delivered
       <==> |Dissemination.SurvivingNeighborhood(cfg, s, p) + HeardFromCrashed(cfg, s, p, k)| > cfg.n / 2
  {
    Dissemination.HolderReachesAll(cfg, s, k, holder);
    DeliveredIffHeard(cfg, s, p, k);
    var near, late := Dissemination.SurvivingNeighborhood(cfg, s, p), HeardFromCrashed(cfg, s, p, k);
    forall a
      ensures a in HeardFrom(cfg, s, p, k) <==> a in near + late
    {
      if a in Dissemination.Survivors(cfg, s) {
        HeardWhenQuiet(cfg, s, p, k, a);
      }
    }
    assert HeardFrom(cfg, s, p, k) == near + late;
  }
}
