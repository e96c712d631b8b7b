/** Without crashes everything is delivered everywhere; and what that costs in messages. */
module Completeness {
  import opened Messages
  import opened System
  import opened Dissemination
  import Causality
  import CausalOrder
  import Confluence
  import FiniteSets
  import Invariants
  import Ring

  /** The links of the configuration by distance on the ring. */
  ghost predicate LinkedWhenClose(cfg: Config) {
    && cfg.n >= 2
    && forall p: nat, q: nat :: (p, q) in cfg.links <==> Ring.Close(p, q, cfg.n)
  }

  lemma RingLinksWhenClose(cfg: Config)
    requires OnRing(cfg)
    ensures LinkedWhenClose(cfg)
  {
    forall p: nat, q: nat
      ensures (p, q) in cfg.links <==> Ring.Close(p, q, cfg.n)
    {
      if p < cfg.n {
        Ring.AdjacentIffClose(p, q, cfg.n);
      }
    }
  }

  lemma NeighborOrSelf(cfg: Config, s: State, p: nat, a: nat)
    requires LinkedWhenClose(cfg) && p < cfg.n && s.crashed == {}
    ensures a in SurvivingNeighborhood(cfg, s, p) <==> a in Ring.Around(p, cfg.n) || a == p
  {
    assert Ring.Close(a, p, cfg.n) <==> Ring.Close(p, a, cfg.n);
  }

  lemma NeighborhoodSize(cfg: Config, s: State, p: nat)
    requires LinkedWhenClose(cfg) && p < cfg.n && s.crashed == {}
    ensures |SurvivingNeighborhood(cfg, s, p)| > cfg.n / 2
  {
    Ring.AroundSize(p, cfg.n);
    var around := Ring.Around(p, cfg.n);
    forall a: nat
      ensures a in SurvivingNeighborhood(cfg, s, p) <==> a in around + {p}
    {
      NeighborOrSelf(cfg, s, p, a);
    }
    FiniteSets.SameMembers(SurvivingNeighborhood(cfg, s, p), around + {p});
  }

  lemma AllUrbDelivered(cfg: Config, s: State, p: nat, b: Body)
    requires Inv(cfg, s) && OnRing(cfg) && Quiet(cfg, s) && s.crashed == {}
    requires p < cfg.n && b in s.history
    ensures b.Id() in s.procs[p].urb.delivered
  {
    assert Survivors(cfg, s) == Ring.Everyone(cfg.n);
    assert b.Id() in s.procs[b.originator].urb.pending by {
      assert b.seqNum < s.procs[b.originator].next;
    }
    HolderReachesAll(cfg, s, b.Id(), b.originator);
    RingLinksWhenClose(cfg);
    NeighborhoodSize(cfg, s, p);
    DeliversWithSurvivingMajority(cfg, s, b.Id(), p);
  }

  ghost function Totals(cfg: Config, s: State): seq<nat>
    requires Shape(cfg, s)
  {
    seq(cfg.n, o requires 0 <= o < cfg.n => s.procs[o].next)
  }

  lemma KnownBelowTotal(cfg: Config, s: State, j: nat, k: Key)
    requires Inv(cfg, s) && j <= |s.history| && Known(s.history, j, k)
    ensures k.originator < cfg.n && k.seqNum < s.procs[k.originator].next
  {
    var x :| 0 <= x < j && s.history[x].Id() == k;
    assert s.history[x] in s.history;
  }

  lemma CountedMessage(cfg: Config, s: State, o: nat, t: nat) returns (b: Body)
    requires Inv(cfg, s) && o < cfg.n && t < s.procs[o].next
    ensures b in s.history && b.Id() == Key(o, t) && cfg.Admits(b)
    ensures CausalOrder.DependenciesMet(cfg, Totals(cfg, s), b)
  {
    assert Known(s.history, |s.history|, Key(o, t));
    var j :| 0 <= j < |s.history| && s.history[j].Id() == Key(o, t);
    b := s.history[j];
    assert PastKnown(cfg, s.history, j, b);
    forall i | 0 <= i < |b.vectorClock|
      ensures b.vectorClock[i] <= Totals(cfg, s)[cfg.deps[o][i]]
    {
      if b.vectorClock[i] > 0 {
        KnownBelowTotal(cfg, s, j, Key(cfg.deps[o][i], b.vectorClock[i] - 1));
      }
    }
  }

  /** All that was ever broadcast is causally closed. */
  lemma TotalsClosed(cfg: Config, s: State)
    requires Inv(cfg, s)
    ensures Confluence.ClosedPrefix(cfg, Totals(cfg, s), set b | b in s.history)
  {
    var everything := set b | b in s.history;
    forall o: nat, t: nat | o < cfg.n && t < Totals(cfg, s)[o]
      ensures Confluence.Supported(cfg, Totals(cfg, s), everything, Key(o, t))
    {
      var b := CountedMessage(cfg, s, o, t);
      assert b in everything;
    }
  }

  /** Main result: when nobody crashed and nothing is under way, every process has delivered every
      message that was broadcast, and nothing waits. */
  lemma FaultFreeCompleteness(cfg: Config, s: State, p: nat)
    requires Inv(cfg, s) && OnRing(cfg) && Quiet(cfg, s) && s.crashed == {} && p < cfg.n
    ensures forall b :: b in s.history ==> Event.Deliver(b) in s.procs[p].lcb.log
    ensures s.procs[p].lcb.clock == Totals(cfg, s)
    ensures forall o :: 0 <= o < cfg.n ==> s.procs[p].lcb.queues[o] == []
  {
    AllReceived(cfg, s, p);
    ClockReachesTotals(cfg, s, p);
    ClockWithinTotals(cfg, s, p);
    NothingWaits(cfg, s, p);
    forall b | b in s.history
      ensures Event.Deliver(b) in s.procs[p].lcb.log
    {
      EveryMessageLogged(cfg, s, p, b);
    }
  }

  lemma AllReceived(cfg: Config, s: State, p: nat)
    requires Inv(cfg, s) && OnRing(cfg) && Quiet(cfg, s) && s.crashed == {} && p < cfg.n
    ensures Received(s, p) == set b | b in s.history
  {
    forall b | b in s.history
      ensures b in Received(s, p)
    {
      AllUrbDelivered(cfg, s, p, b);
    }
  }

  lemma ClockReachesTotals(cfg: Config, s: State, p: nat)
    requires Inv(cfg, s) && p < cfg.n && Received(s, p) == set b | b in s.history
    ensures forall o :: 0 <= o < cfg.n ==> s.procs[o].next <= s.procs[p].lcb.clock[o]
  {
    assert UpperSound(cfg, s, p);
    TotalsClosed(cfg, s);
    Confluence.ClockIsGreatestPrefix(cfg, s.history, s.procs[p].lcb, Received(s, p), Totals(cfg, s));
  }

  lemma EveryMessageLogged(cfg: Config, s: State, p: nat, b: Body)
    requires Inv(cfg, s) && p < cfg.n && b in s.history
    requires s.procs[b.originator].next <= s.procs[p].lcb.clock[b.originator]
    ensures Event.Deliver(b) in s.procs[p].lcb.log
  {
    var log := s.procs[p].lcb.log;
    assert log[..|log|] == log;
    assert UpperSound(cfg, s, p);
    var i := Causality.EventOfCounted(cfg, s, p, |log|, b);
  }

  lemma ClockWithinTotals(cfg: Config, s: State, p: nat)
    requires Inv(cfg, s) && p < cfg.n
    ensures forall o :: 0 <= o < cfg.n ==> s.procs[p].lcb.clock[o] <= s.procs[o].next
  {
    forall o | 0 <= o < cfg.n
      ensures s.procs[p].lcb.clock[o] <= s.procs[o].next
    {
      if s.procs[p].lcb.clock[o] > 0 {
        var last: nat := s.procs[p].lcb.clock[o] - 1;
        Invariants.CountedIsKnown(cfg, s, p, o, last);
        KnownBelowTotal(cfg, s, |s.history|, Key(o, last));
      }
    }
  }

  lemma WaitingIsUndelivered(cfg: Config, s: State, p: nat, o: nat, b: Body)
    requires Inv(cfg, s) && p < cfg.n && o < cfg.n && b in s.procs[p].lcb.queues[o]
    ensures s.procs[p].lcb.clock[o] <= b.seqNum < s.procs[o].next
  {
    assert CausalOrder.HoldsWaiting(s.procs[p].lcb.queues[o], o, s.procs[p].lcb.clock[o], Received(s, p)) by {
      assert UpperSound(cfg, s, p);
    }
    assert b in s.history;
  }

  lemma NothingWaits(cfg: Config, s: State, p: nat)
    requires Inv(cfg, s) && p < cfg.n
    requires forall o :: 0 <= o < cfg.n ==> s.procs[o].next <= s.procs[p].lcb.clock[o]
    ensures forall o :: 0 <= o < cfg.n ==> s.procs[p].lcb.queues[o] == []
  {
    forall o | 0 <= o < cfg.n
      ensures s.procs[p].lcb.queues[o] == []
    {
      if s.procs[p].lcb.queues[o] != [] {
        var b := Confluence.Member(s.procs[p].lcb.queues[o]);
        WaitingIsUndelivered(cfg, s, p, o, b);
        assert false;
      }
    }
  }

  // ------------------------------------------------------------------------------------------
  // Cost
  // ------------------------------------------------------------------------------------------

  /** All transmissions of one message key: sender, receiver and link sequence number. */
  ghost function Transmissions(cfg: Config, s: State, k: Key): set<(nat, nat, nat)>
    requires Shape(cfg, s)
  {
    set p, q, i | 0 <= p < cfg.n && 0 <= q < cfg.n && 0 <= i < |s.net[p][q].issued|
                  && s.net[p][q].issued[i].Id() == k ::
      (p, q, i)
  }

  /** Each process that holds the message has sent it exactly once on each of its links, and nobody else has
      sent it. */
  lemma OneTransmissionPerLink(cfg: Config, s: State, k: Key)
    requires Inv(cfg, s)
    ensures |Transmissions(cfg, s, k)| == |LinksFrom(cfg, Holders(s, k))|
  {
    var ts, links := Transmissions(cfg, s, k), LinksFrom(cfg, Holders(s, k));
    var f := (t: (nat, nat, nat)) => (t.0, t.1);
    forall t | t in ts
      ensures f(t) in links
    {
      assert ChannelSound(cfg, s, t.0, t.1);
    }
    forall t, u | t in ts && u in ts && f(t) == f(u)
      ensures t == u
    {
      assert ChannelSound(cfg, s, t.0, t.1);
    }
    FiniteSets.InjectionSize(ts, links, f);
    forall l | l in links
      ensures exists t :: t in ts && f(t) == l
    {
      var i := TransmissionOn(cfg, s, k, l.0, l.1);
      assert (l.0, l.1, i) in ts && f((l.0, l.1, i)) == l;
    }
    FiniteSets.SurjectionSize(ts, links, f);
  }

  lemma TransmissionOn(cfg: Config, s: State, k: Key, p: nat, q: nat) returns (i: nat)
    requires Inv(cfg, s) && (p, q) in LinksFrom(cfg, Holders(s, k))
    ensures (p, q, i) in Transmissions(cfg, s, k)
  {
    assert Issued(s.net[p][q], k);
    i :| 0 <= i < |s.net[p][q].issued| && s.net[p][q].issued[i].Id() == k;
  }

  ghost function LinksFrom(cfg: Config, senders: set<nat>): set<(nat, nat)> {
    set l | l in cfg.links && l.0 in senders && l.0 < cfg.n && l.1 < cfg.n
  }

  ghost function LinksOf(cfg: Config, p: nat): set<(nat, nat)> {
    set l | l in cfg.links && l.0 == p
  }

  lemma LinksOfSize(cfg: Config, p: nat)
    requires LinkedWhenClose(cfg) && p < cfg.n
    ensures |LinksOf(cfg, p)| == |Ring.Around(p, cfg.n)|
  {
    var around, mine := Ring.Around(p, cfg.n), LinksOf(cfg, p);
    forall l | l in mine
      ensures l.1 in around
    {
      assert (l.0, l.1) in cfg.links;
    }
    FiniteSets.InjectionSize(mine, around, (l: (nat, nat)) => l.1);
    FiniteSets.InjectionSize<nat, (nat, nat)>(around, mine, (x: nat) => (p, x));
  }

  lemma Distribute(n: nat, d: nat)
    ensures n * d + n == n * (d + 1) && d * n + n == (d + 1) * n
  {}

  lemma {:induction false} LinksFromSize(cfg: Config, senders: set<nat>, degree: nat)
    requires LinkedWhenClose(cfg) && forall p: nat :: p in senders ==> p < cfg.n && |LinksOf(cfg, p)| == degree
    ensures |LinksFrom(cfg, senders)| == |senders| * degree
    decreases senders
  {
    if p :| p in senders {
      LinksFromSize(cfg, senders - {p}, degree);
      assert LinksFrom(cfg, senders) == LinksFrom(cfg, senders - {p}) + LinksOf(cfg, p) by {
        forall l | l in LinksOf(cfg, p)
          ensures l.1 < cfg.n
        {
          assert (l.0, l.1) in cfg.links;
        }
      }
      Distribute(degree, |senders| - 1);
    } else {
      assert LinksFrom(cfg, senders) == {};
    }
  }

  /** Main result: in every state, whatever was lost and whoever crashed, a message has cost exactly
      `2 * ceil(n/4)` sends for each process that holds it. */
  lemma TransmissionsExactly(cfg: Config, s: State, k: Key)
    requires Inv(cfg, s) && OnRing(cfg) && cfg.n >= 3
    ensures |Transmissions(cfg, s, k)| == |Holders(s, k)| * (2 * Ring.PerSide(cfg.n))
  {
    RingLinksWhenClose(cfg);
    OneTransmissionPerLink(cfg, s, k);
    forall p: nat | p in Holders(s, k)
      ensures p < cfg.n && |LinksOf(cfg, p)| == 2 * Ring.PerSide(cfg.n)
    {
      LinksOfSize(cfg, p);
      Ring.AroundSize(p, cfg.n);
    }
    LinksFromSize(cfg, Holders(s, k), 2 * Ring.PerSide(cfg.n));
  }

  /** Counting the delivery to oneself, that is at most `n * (2 * ceil(n/4) + 1)` sends. */
  lemma TransmissionBound(cfg: Config, s: State, k: Key)
    requires Inv(cfg, s) && OnRing(cfg) && cfg.n >= 3
    ensures |Transmissions(cfg, s, k)| + |Holders(s, k)| <= cfg.n * (2 * Ring.PerSide(cfg.n) + 1)
  {
    TransmissionsExactly(cfg, s, k);
    HoldersSize(cfg, s, k);
    Distribute(|Holders(s, k)|, 2 * Ring.PerSide(cfg.n));
    Monotone(|Holders(s, k)|, cfg.n, 2 * Ring.PerSide(cfg.n) + 1);
  }

  lemma Monotone(a: nat, b: nat, c: nat)
    requires a <= b
    ensures a * c <= b * c
  {}

  lemma HoldersSize(cfg: Config, s: State, k: Key)
    requires Shape(cfg, s)
    ensures |Holders(s, k)| <= cfg.n
  {
    FiniteSets.SubsetSize(Holders(s, k), Ring.Everyone(cfg.n));
  }
}
