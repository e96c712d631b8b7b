/** For which crashes the survivors are sure to deliver the same messages in uniform reliable broadcast. */
module Agreement {
  import opened Messages
  import opened Protocol
  import opened LossySystem
  import Completion
  import Continuation
  import Dissemination
  import FiniteSets
  import Hearing
  import Link
  import Program
  import Ring
  import System
  import Transmission

  /** What one survivor has delivered, every survivor has delivered. */
  ghost predicate SurvivorsAgree(cfg: Config, s: State)
    requires Shape(cfg, s)
  {
    forall k, p, q :: 0 <= p < cfg.n && 0 <= q < cfg.n && p !in s.crashed && q !in s.crashed ==>
      k in s.procs[p].urb.delivered ==> k in s.procs[q].urb.delivered
  }

  /** What any process has delivered, even one that crashed, every survivor has delivered. */
  ghost predicate UniformlyAgree(cfg: Config, s: State)
    requires Shape(cfg, s)
  {
    forall k, p, q :: 0 <= p < cfg.n && 0 <= q < cfg.n && q !in s.crashed ==>
      k in s.procs[p].urb.delivered ==> k in s.procs[q].urb.delivered
  }

  /** `p` and its neighbours, without the crashed processes. */
  function Remaining(cfg: Config, crashed: set<nat>, p: nat): set<nat> {
    set a | a in Ring.Everyone(cfg.n) && a !in crashed && (a == p || (a, p) in cfg.links)
  }

  /** Every survivor has a majority of all processes around it. */
  predicate MajorityAroundAll(cfg: Config, crashed: set<nat>) {
    forall p :: 0 <= p < cfg.n && p !in crashed ==> |Remaining(cfg, crashed, p)| > cfg.n / 2
  }

  /** A minority of the processes, given by their numbers. */
  ghost predicate Minority(cfg: Config, crashed: set<nat>) {
    crashed <= Ring.Everyone(cfg.n) && 2 * |crashed| < cfg.n
  }

  lemma MinorityMeans(cfg: Config, s: State)
    requires Shape(cfg, s) && Minority(cfg, s.crashed)
    ensures Dissemination.MinorityCrashed(cfg, Abs(cfg, s))
    ensures forall p: nat :: p < cfg.n ==>
              Dissemination.SurvivingNeighborhood(cfg, Abs(cfg, s), p) == Remaining(cfg, s.crashed, p)
  {
    var up := Dissemination.Survivors(cfg, Abs(cfg, s));
    assert up !! s.crashed && up + s.crashed == Ring.Everyone(cfg.n);
    assert |up + s.crashed| == |up| + |s.crashed|;
  }

  // ------------------------------------------------------------------------------------------
  // Enough processes around every survivor
  // ------------------------------------------------------------------------------------------

  /** A state at rest, as the layers above the links see it. */
  ghost predicate AtRest(cfg: Config, s: System.State) {
    && System.Inv(cfg, s) && Hearing.HearingInv(cfg, s) && Dissemination.OnRing(cfg)
    && Dissemination.Quiet(cfg, s) && Dissemination.MinorityCrashed(cfg, s)
  }

  lemma ComesToRest(cfg: Config, s: State)
    requires Transmission.Good(cfg, s) && SurvivorsIdle(cfg, s) && Dissemination.OnRing(cfg) && Minority(cfg, s.crashed)
    ensures AtRest(cfg, Abs(cfg, s))
  {
    Continuation.IdleIsQuiet(cfg, s);
    MinorityMeans(cfg, s);
  }

  lemma AroundSurvivor(cfg: Config, s: State, p: nat)
    requires Shape(cfg, s) && Minority(cfg, s.crashed) && p < cfg.n && p !in s.crashed
    ensures p in Dissemination.Survivors(cfg, Abs(cfg, s))
    ensures Dissemination.SurvivingNeighborhood(cfg, Abs(cfg, s), p) == Remaining(cfg, s.crashed, p)
  {
    MinorityMeans(cfg, s);
  }

  lemma DeliveredAround(cfg: Config, s: System.State, k: Key, p: nat, q: nat)
    requires AtRest(cfg, s) && p < cfg.n && k in s.procs[p].urb.delivered
    requires q in Dissemination.Survivors(cfg, s) && |Dissemination.SurvivingNeighborhood(cfg, s, q)| > cfg.n / 2
    ensures k in s.procs[q].urb.delivered
  {
    Dissemination.UniformDissemination(cfg, s, k, p);
    Dissemination.DeliversWithSurvivingMajority(cfg, s, k, q);
  }

  lemma MajorityGivesAgreement(cfg: Config, s: State)
    requires Transmission.Good(cfg, s) && SurvivorsIdle(cfg, s) && Dissemination.OnRing(cfg)
    requires Minority(cfg, s.crashed) && MajorityAroundAll(cfg, s.crashed)
    ensures UniformlyAgree(cfg, s)
  {
    ComesToRest(cfg, s);
    forall k, p, q | 0 <= p < cfg.n && 0 <= q < cfg.n && q !in s.crashed && k in s.procs[p].urb.delivered
      ensures k in s.procs[q].urb.delivered
    {
      AroundSurvivor(cfg, s, q);
      DeliveredAround(cfg, Abs(cfg, s), k, p, q);
    }
  }

  // ------------------------------------------------------------------------------------------
  // Too few processes around one survivor: a run in which it misses a message
  // ------------------------------------------------------------------------------------------

  ghost function Initially(cfg: Config, m: nat): Program.State {
    Program.State(
      State(seq(cfg.n, _ => Init(cfg.n)), seq(cfg.n, _ => seq(cfg.n, _ => Link.FRESH)), [], {}),
      seq(cfg.n, _ => m))
  }

  lemma InitiallyGood(cfg: Config, m: nat)
    requires cfg.Valid()
    ensures Program.Start(cfg, m, Initially(cfg, m)) && Program.Reachable(cfg, m, Initially(cfg, m))
    ensures Program.Good(cfg, m, Initially(cfg, m))
  {
    Program.StartGood(cfg, m, Initially(cfg, m));
    Program.LeadsToItself(cfg, m, Initially(cfg, m));
  }

  /** Nothing has been handed up between the two processes. */
  ghost predicate Silent(s: State, p: nat, q: nat)
    requires p < |s.links| && q < |s.links[p]|
  {
    s.links[p][q].delivered == {}
  }

  /** `p` was the first to broadcast. */
  ghost predicate Opened(s: State, p: nat) {
    0 < |s.history| < Link.TOP_BIT && s.history[0].Id() == Key(p, 0)
  }

  lemma BroadcastEffect(cfg: Config, s: State, p: nat)
    requires Shape(cfg, s) && p < cfg.n
    ensures var s' := Continuation.AfterBroadcast(cfg, s, p);
      Key(p, s.procs[p].next) in s'.procs[p].urb.pending && s'.history == s.history + [NextBody(cfg, p, s.procs[p])]
  {}

  ghost predicate AllSilent(cfg: Config, s: State)
    requires Shape(cfg, s)
  {
    forall a, c :: 0 <= a < cfg.n && 0 <= c < cfg.n ==> Silent(s, a, c)
  }

  lemma FirstBroadcast(cfg: Config, m: nat, p: nat) returns (x: Program.State)
    requires Program.Valid(cfg, m) && m >= 1 && p < cfg.n
    ensures Program.Good(cfg, m, x) && Program.Leads(cfg, m, Initially(cfg, m), x)
    ensures x.sys.history != [] && x.sys.history[0].Id() == Key(p, 0) && x.sys.crashed == {}
    ensures Key(p, 0) in x.sys.procs[p].urb.pending && AllSilent(cfg, x.sys)
  {
    InitiallyGood(cfg, m);
    InitiallyNothing(cfg, m);
    x := FirstStep(cfg, m, Initially(cfg, m), p);
  }

  /** Nothing has happened yet. */
  ghost predicate NothingYet(cfg: Config, s: State)
    requires Shape(cfg, s)
  {
    s.history == [] && s.crashed == {} && (forall p :: 0 <= p < cfg.n ==> s.procs[p].next == 0) && AllSilent(cfg, s)
  }

  lemma InitiallyNothing(cfg: Config, m: nat)
    requires cfg.Valid()
    ensures Shape(cfg, Initially(cfg, m).sys) && NothingYet(cfg, Initially(cfg, m).sys)
  {}

  lemma FirstStep(cfg: Config, m: nat, start: Program.State, p: nat) returns (x: Program.State)
    requires Program.Valid(cfg, m) && m >= 1 && p < cfg.n
    requires Program.Good(cfg, m, start) && NothingYet(cfg, start.sys)
    ensures Program.Good(cfg, m, x) && Program.Leads(cfg, m, start, x)
    ensures x.sys.history != [] && x.sys.history[0].Id() == Key(p, 0) && x.sys.crashed == {}
    ensures Key(p, 0) in x.sys.procs[p].urb.pending && AllSilent(cfg, x.sys)
  {
    Completion.BroadcastPossible(cfg, m, start, p);
    x := Completion.AfterBroadcast(cfg, m, start, p);
    FirstEffect(cfg, start.sys, p);
  }

  /** What the first broadcast leaves behind. */
  lemma FirstEffect(cfg: Config, s: State, p: nat)
    requires Shape(cfg, s) && p < cfg.n && Shape(cfg, Continuation.AfterBroadcast(cfg, s, p))
    requires NothingYet(cfg, s) && Completion.Longer(cfg, s, Continuation.AfterBroadcast(cfg, s, p))
    ensures var s' := Continuation.AfterBroadcast(cfg, s, p);
      && s'.history != [] && s'.history[0].Id() == Key(p, 0) && s'.crashed == s.crashed
      && Key(p, 0) in s'.procs[p].urb.pending && AllSilent(cfg, s')
  {
    BroadcastEffect(cfg, s, p);
    StillSilent(cfg, s, Continuation.AfterBroadcast(cfg, s, p));
  }

  /** `p` broadcasts its first message, and then everybody all the rest, before anything arrives. */
  lemma AllBroadcast(cfg: Config, m: nat, p: nat) returns (x: Program.State)
    requires Program.Valid(cfg, m) && m >= 1 && p < cfg.n
    ensures Program.Good(cfg, m, x) && Program.Leads(cfg, m, Initially(cfg, m), x)
    ensures Continuation.AllSent(cfg, m, x.sys)
    ensures Opened(x.sys, p) && x.sys.crashed == {} && Key(p, 0) in x.sys.procs[p].urb.pending
    ensures AllSilent(cfg, x.sys)
  {
    var first := FirstBroadcast(cfg, m, p);
    x := Completion.SendRest(cfg, m, first);
    Program.LeadsOn(cfg, m, Initially(cfg, m), first, x);
    Program.NumbersSuffice(cfg, m, x.sys);
    StillSilent(cfg, first.sys, x.sys);
  }

  lemma StillSilent(cfg: Config, s: State, s': State)
    requires Shape(cfg, s) && Shape(cfg, s') && Completion.Longer(cfg, s, s') && AllSilent(cfg, s)
    ensures AllSilent(cfg, s')
  {
    forall a, c | 0 <= a < cfg.n && 0 <= c < cfg.n
      ensures Silent(s', a, c)
    {
      assert Silent(s, a, c);
    }
  }

  /** The links of `p` in both directions. */
  function LinksAt(cfg: Config, p: nat): set<(nat, nat)> {
    set l | l in cfg.links && (l.0 == p || l.1 == p)
  }

  lemma LinksGoBothWays(cfg: Config, a: nat, p: nat)
    requires Dissemination.OnRing(cfg) && a < cfg.n && p < cfg.n
    ensures (a, p) in cfg.links <==> (p, a) in cfg.links
  {
    Ring.Symmetric(a, p, cfg.n);
  }

  lemma LinksInside(cfg: Config, l: (nat, nat))
    requires Dissemination.OnRing(cfg) && l in cfg.links
    ensures l.0 < cfg.n && l.1 < cfg.n
  {
    assert (l.0, l.1) in cfg.links;
    Ring.Degree(l.0, cfg.n);
  }

  lemma IssuedIsHeard(cfg: Config, s: System.State, a: nat, c: nat, k: Key)
    requires System.Shape(cfg, s) && a < cfg.n && c < cfg.n && System.ChannelSound(cfg, s, a, c)
    requires System.Issued(s.net[a][c], k)
    requires forall i :: 0 <= i < |s.net[a][c].issued| ==> i in s.net[a][c].received
    ensures k in s.procs[c].urb.pending && Hearing.Heard(s, a, c, k)
  {
    var i :| 0 <= i < |s.net[a][c].issued| && s.net[a][c].issued[i].Id() == k;
    assert i in s.net[a][c].received;
  }

  /** What a holder sent on a link whose messages have all arrived is held at the other end. */
  lemma ArrivedIsHeld(cfg: Config, s: State, a: nat, c: nat, k: Key)
    requires Transmission.Good(cfg, s) && a < cfg.n && c < cfg.n && (a, c) in cfg.links
    requires k in s.procs[a].urb.pending
    requires Continuation.AllHandedUp(s.links[a][c])
    ensures k in s.procs[c].urb.pending && Hearing.Heard(Abs(cfg, s), a, c, k)
  {
    assert System.NetInv(cfg, Abs(cfg, s));
    IssuedIsHeard(cfg, Abs(cfg, s), a, c, k);
  }

  lemma LinkedToNeighbor(cfg: Config, p: nat, a: nat)
    requires Dissemination.OnRing(cfg) && p < cfg.n && a in Ring.Around(p, cfg.n)
    ensures (p, a) in LinksAt(cfg, p) && (a, p) in LinksAt(cfg, p) && a < cfg.n
  {
    Ring.AdjacentIffClose(p, a, cfg.n);
    LinksGoBothWays(cfg, a, p);
  }

  lemma HeardFromNeighbor(cfg: Config, s: State, p: nat, k: Key, a: nat)
    requires Transmission.Good(cfg, s) && Dissemination.OnRing(cfg) && p < cfg.n && k in s.procs[p].urb.pending
    requires forall l :: l in LinksAt(cfg, p) ==> l.0 < cfg.n && l.1 < cfg.n
    requires Continuation.AllArrived(s, LinksAt(cfg, p)) && a in Ring.Around(p, cfg.n)
    ensures a < cfg.n && Hearing.Heard(Abs(cfg, s), a, p, k)
  {
    LinkedToNeighbor(cfg, p, a);
    ArrivedIsHeld(cfg, s, p, a, k);
    ArrivedIsHeld(cfg, s, a, p, k);
  }

  lemma IsHeardFrom(cfg: Config, s: System.State, p: nat, k: Key, a: nat)
    requires System.Shape(cfg, s) && p < cfg.n && a < cfg.n
    requires Hearing.Heard(s, a, p, k) || (a == p && k in s.procs[p].urb.pending)
    ensures a in Hearing.HeardFrom(cfg, s, p, k)
  {}

  lemma NeighborHeard(cfg: Config, s: State, p: nat, k: Key, a: nat)
    requires Transmission.Good(cfg, s) && Dissemination.OnRing(cfg) && p < cfg.n && k in s.procs[p].urb.pending
    requires forall l :: l in LinksAt(cfg, p) ==> l.0 < cfg.n && l.1 < cfg.n
    requires Continuation.AllArrived(s, LinksAt(cfg, p)) && a in Ring.Around(p, cfg.n)
    ensures a in Hearing.HeardFrom(cfg, Abs(cfg, s), p, k)
  {
    HeardFromNeighbor(cfg, s, p, k, a);
    IsHeardFrom(cfg, Abs(cfg, s), p, k, a);
  }

  /** When all links of a holder are quiet, it has heard the key from all around it. */
  lemma HeardFromAllAround(cfg: Config, s: State, p: nat, k: Key)
    requires Transmission.Good(cfg, s) && Dissemination.OnRing(cfg) && p < cfg.n && k in s.procs[p].urb.pending
    requires forall l :: l in LinksAt(cfg, p) ==> l.0 < cfg.n && l.1 < cfg.n
    requires Continuation.AllArrived(s, LinksAt(cfg, p))
    ensures Ring.Around(p, cfg.n) + {p} <= Hearing.HeardFrom(cfg, Abs(cfg, s), p, k)
  {
    forall a | a in Ring.Around(p, cfg.n)
      ensures a in Hearing.HeardFrom(cfg, Abs(cfg, s), p, k)
    {
      NeighborHeard(cfg, s, p, k, a);
    }
    IsHeardFrom(cfg, Abs(cfg, s), p, k, p);
  }

  lemma DeliveredAfterAllAround(cfg: Config, s: State, p: nat, k: Key)
    requires Transmission.Good(cfg, s) && Dissemination.OnRing(cfg) && p < cfg.n && k in s.procs[p].urb.pending
    requires forall l :: l in LinksAt(cfg, p) ==> l.0 < cfg.n && l.1 < cfg.n
    requires Continuation.AllArrived(s, LinksAt(cfg, p))
    ensures k in s.procs[p].urb.delivered
  {
    var heard := Hearing.HeardFrom(cfg, Abs(cfg, s), p, k);
    HeardFromAllAround(cfg, s, p, k);
    Ring.AroundSize(p, cfg.n);
    FiniteSets.SubsetSize(Ring.Around(p, cfg.n) + {p}, heard);
    Hearing.DeliveredIffHeard(cfg, Abs(cfg, s), p, k);
  }

  /** `p` delivers its message while everybody else has only heard from `p`, if at all. */
  lemma DeliversAlone(cfg: Config, m: nat, p: nat) returns (origin: Continuation.Origin, s: State)
    requires Program.Valid(cfg, m) && m >= 1 && Dissemination.OnRing(cfg) && p < cfg.n
    ensures Transmission.Good(cfg, s) && Continuation.Leads(cfg, origin, s)
    ensures origin.m == m && origin.start == Initially(cfg, m)
    ensures Opened(s, p) && s.crashed == {} && Key(p, 0) in s.procs[p].urb.delivered
    ensures forall a, c :: 0 <= a < cfg.n && 0 <= c < cfg.n && a != p && c != p ==> Silent(s, a, c)
  {
    var sent := AllBroadcast(cfg, m, p);
    origin := Continuation.Origin(m, Initially(cfg, m), sent.quota);
    assert sent == Program.State(sent.sys, sent.quota);
    forall l | l in LinksAt(cfg, p)
      ensures l.0 < cfg.n && l.1 < cfg.n
    {
      LinksInside(cfg, l);
    }
    s := Continuation.Drive(cfg, origin, sent.sys, LinksAt(cfg, p));
    DeliveredAfterAllAround(cfg, s, p, Key(p, 0));
    SilentElsewhere(cfg, sent.sys, s, p);
  }

  lemma SilentElsewhere(cfg: Config, s: State, s': State, p: nat)
    requires Shape(cfg, s) && Shape(cfg, s') && Continuation.OnlyOn(cfg, s, s', LinksAt(cfg, p)) && AllSilent(cfg, s)
    ensures forall a, c :: 0 <= a < cfg.n && 0 <= c < cfg.n && a != p && c != p ==> Silent(s', a, c)
  {
    forall a, c | 0 <= a < cfg.n && 0 <= c < cfg.n && a != p && c != p
      ensures Silent(s', a, c)
    {
      assert Silent(s, a, c) && (a, c) !in LinksAt(cfg, p);
    }
  }

  lemma CrashPossible(cfg: Config, origin: Continuation.Origin, s: State, p: nat)
    requires Transmission.Good(cfg, s) && Continuation.Leads(cfg, origin, s) && p < cfg.n
    ensures Transmission.Good(cfg, s.(crashed := s.crashed + {p}))
    ensures Continuation.Leads(cfg, origin, s.(crashed := s.crashed + {p}))
  {
    var s' := s.(crashed := s.crashed + {p});
    assert CrashStep(s, s', p);
    Continuation.OneStep(cfg, origin, s, s');
  }

  lemma {:induction false} CrashAll(cfg: Config, origin: Continuation.Origin, s: State, more: set<nat>)
    requires Transmission.Good(cfg, s) && Continuation.Leads(cfg, origin, s) && more <= Ring.Everyone(cfg.n)
    ensures Transmission.Good(cfg, s.(crashed := s.crashed + more))
    ensures Continuation.Leads(cfg, origin, s.(crashed := s.crashed + more))
    decreases more
  {
    if p :| p in more {
      CrashPossible(cfg, origin, s, p);
      CrashAll(cfg, origin, s.(crashed := s.crashed + {p}), more - {p});
      assert s.crashed + {p} + (more - {p}) == s.crashed + more;
    } else {
      assert s.crashed + more == s.crashed;
    }
  }

  lemma SilentIsUnheard(cfg: Config, s: State, k: Key, q: nat)
    requires Shape(cfg, s) && q < cfg.n && q !in s.crashed
    requires forall a :: 0 <= a < cfg.n && a in s.crashed ==> Silent(s, a, q)
    ensures Hearing.HeardFromCrashed(cfg, Abs(cfg, s), q, k) == {}
  {
    forall a: nat | a in s.crashed && a < cfg.n
      ensures !Hearing.Heard(Abs(cfg, s), a, q, k)
    {
      assert Silent(s, a, q);
      assert Abs(cfg, s).net[a][q].received == {};
    }
  }

  lemma TooFewHeard(cfg: Config, s: System.State, k: Key, holder: nat, q: nat)
    requires AtRest(cfg, s)
    requires holder in Dissemination.Survivors(cfg, s) && k in s.procs[holder].urb.pending
    requires q in Dissemination.Survivors(cfg, s) && Hearing.HeardFromCrashed(cfg, s, q, k) == {}
    requires |Dissemination.SurvivingNeighborhood(cfg, s, q)| <= cfg.n / 2
    ensures k !in s.procs[q].urb.delivered
  {
    var near := Dissemination.SurvivingNeighborhood(cfg, s, q);
    assert near + {} == near;
    Hearing.DeliveryConditionAfterCrashes(cfg, s, k, q, holder);
  }

  /** A survivor that heard from no crashed process does not deliver with too few around it. */
  lemma MissesDelivery(cfg: Config, s: State, k: Key, holder: nat, q: nat)
    requires Transmission.Good(cfg, s) && Dissemination.OnRing(cfg) && SurvivorsIdle(cfg, s) && Minority(cfg, s.crashed)
    requires holder < cfg.n && holder !in s.crashed && k in s.procs[holder].urb.pending
    requires q < cfg.n && q !in s.crashed && |Remaining(cfg, s.crashed, q)| <= cfg.n / 2
    requires forall a :: 0 <= a < cfg.n && a in s.crashed ==> Silent(s, a, q)
    ensures k !in s.procs[q].urb.delivered
  {
    ComesToRest(cfg, s);
    AroundSurvivor(cfg, s, holder);
    AroundSurvivor(cfg, s, q);
    SilentIsUnheard(cfg, s, k, q);
    TooFewHeard(cfg, Abs(cfg, s), k, holder, q);
  }

  lemma DeliveredIsHeld(cfg: Config, s: State, p: nat, k: Key)
    requires Transmission.Good(cfg, s) && p < cfg.n && k in s.procs[p].urb.delivered
    ensures k in s.procs[p].urb.pending
  {
    assert System.AcksSound(cfg, Abs(cfg, s), p, k);
  }

  lemma StaySilent(cfg: Config, s: State, s': State, p: nat, q: nat)
    requires Shape(cfg, s) && Shape(cfg, s') && p < cfg.n && q < cfg.n && p != q && p !in s.crashed
    requires forall a, c :: 0 <= a < cfg.n && 0 <= c < cfg.n && a != p && c != p ==> Silent(s, a, c)
    requires Continuation.OnlyOn(cfg, s, s', Continuation.BetweenSurvivors(cfg, s.crashed))
    ensures forall a :: 0 <= a < cfg.n && a in s.crashed ==> Silent(s', a, q)
  {
    forall a | 0 <= a < cfg.n && a in s.crashed
      ensures Silent(s', a, q)
    {
      assert Silent(s, a, q) && (a, q) !in Continuation.BetweenSurvivors(cfg, s.crashed);
    }
  }

  /** `p` delivers its message having heard from all around it, then the given processes crash before
      anything else of theirs arrives. */
  lemma DeliversThenCrash(cfg: Config, m: nat, crashed: set<nat>, p: nat)
    returns (origin: Continuation.Origin, s: State)
    requires Program.Valid(cfg, m) && m >= 1 && Dissemination.OnRing(cfg) && Minority(cfg, crashed) && p < cfg.n
    ensures Transmission.Good(cfg, s) && Continuation.Leads(cfg, origin, s)
    ensures origin.m == m && origin.start == Initially(cfg, m)
    ensures Opened(s, p) && s.crashed == crashed && Key(p, 0) in s.procs[p].urb.delivered
    ensures forall a, c :: 0 <= a < cfg.n && 0 <= c < cfg.n && a != p && c != p ==> Silent(s, a, c)
  {
    var alone;
    origin, alone := DeliversAlone(cfg, m, p);
    CrashAll(cfg, origin, alone, crashed);
    s := alone.(crashed := alone.crashed + crashed);
    assert {} + crashed == crashed;
    forall a, c | 0 <= a < cfg.n && 0 <= c < cfg.n && a != p && c != p
      ensures Silent(s, a, c)
    {
      assert Silent(alone, a, c);
    }
  }

  /** The survivors come to rest without `q` hearing from a crashed process. */
  lemma RestWithout(cfg: Config, m: nat, crashed: set<nat>, p: nat, q: nat)
    returns (origin: Continuation.Origin, s: State)
    requires Program.Valid(cfg, m) && m >= 1 && Dissemination.OnRing(cfg) && Minority(cfg, crashed)
    requires p < cfg.n && q < cfg.n && p != q && p !in crashed && q !in crashed
    ensures Transmission.Good(cfg, s) && Continuation.Leads(cfg, origin, s)
    ensures origin.m == m && origin.start == Initially(cfg, m) && Opened(s, p)
    ensures SurvivorsIdle(cfg, s) && s.crashed == crashed && Key(p, 0) in s.procs[p].urb.delivered
    ensures forall a :: 0 <= a < cfg.n && a in crashed ==> Silent(s, a, q)
  {
    var down;
    origin, down := DeliversThenCrash(cfg, m, crashed, p);
    s := Continuation.Rest(cfg, origin, down);
    StaySilent(cfg, down, s, p, q);
  }

  /** A run of the program in which everything was broadcast, one survivor delivered a message, and another
      one has not. */
  lemma Disagreement(cfg: Config, m: nat, crashed: set<nat>, p: nat, q: nat) returns (x: Program.State)
    requires Program.Valid(cfg, m) && m >= 1 && Dissemination.OnRing(cfg) && Minority(cfg, crashed)
    requires p < cfg.n && q < cfg.n && p != q && p !in crashed && q !in crashed
    requires |Remaining(cfg, crashed, q)| <= cfg.n / 2
    ensures AtRestAfter(cfg, m, crashed, x) && Opened(x.sys, p)
    ensures Key(p, 0) in x.sys.procs[p].urb.delivered && Key(p, 0) !in x.sys.procs[q].urb.delivered
  {
    var origin, s := RestWithout(cfg, m, crashed, p, q);
    DeliveredIsHeld(cfg, s, p, Key(p, 0));
    MissesDelivery(cfg, s, Key(p, 0), p, q);
    x := Program.State(s, origin.quota);
    InitiallyGood(cfg, m);
    Program.ReachableOn(cfg, m, Initially(cfg, m), x);
  }

  // ------------------------------------------------------------------------------------------
  // The condition
  // ------------------------------------------------------------------------------------------

  /** All states that a run of the program can come to rest in after exactly these crashes: the survivors
      have broadcast everything, and their links are idle. */
  ghost predicate AtRestAfter(cfg: Config, m: nat, crashed: set<nat>, x: Program.State) {
    && Program.Reachable(cfg, m, x) && x.sys.crashed == crashed
    && SurvivorsIdle(cfg, x.sys) && Continuation.AllSent(cfg, m, x.sys)
  }

  lemma AnotherSurvivor(cfg: Config, crashed: set<nat>, q: nat) returns (p: nat)
    requires cfg.n >= 2 && Minority(cfg, crashed)
    ensures p < cfg.n && p != q && p !in crashed
  {
    var taken := crashed + {q};
    assert |taken| <= |crashed| + 1 < cfg.n;
    if p': nat :| p' in Ring.Everyone(cfg.n) && p' !in taken {
      p := p';
    } else {
      FiniteSets.SubsetSize(Ring.Everyone(cfg.n), taken);
      assert false;
    }
  }

  lemma RestAgrees(cfg: Config, m: nat, crashed: set<nat>, x: Program.State)
    requires Dissemination.OnRing(cfg) && Minority(cfg, crashed) && MajorityAroundAll(cfg, crashed)
    requires AtRestAfter(cfg, m, crashed, x)
    ensures UniformlyAgree(cfg, x.sys) && SurvivorsAgree(cfg, x.sys)
  {
    Program.ReachableGood(cfg, m, x);
    MajorityGivesAgreement(cfg, x.sys);
  }

  lemma SomeDisagreement(cfg: Config, m: nat, crashed: set<nat>) returns (x: Program.State, p: nat, q: nat)
    requires Program.Valid(cfg, m) && m >= 1 && Dissemination.OnRing(cfg) && Minority(cfg, crashed)
    requires !MajorityAroundAll(cfg, crashed)
    ensures AtRestAfter(cfg, m, crashed, x) && Opened(x.sys, p)
    ensures p < cfg.n && q < cfg.n && p !in crashed && q !in crashed
    ensures Key(p, 0) in x.sys.procs[p].urb.delivered && Key(p, 0) !in x.sys.procs[q].urb.delivered
  {
    q :| q < cfg.n && q !in crashed && |Remaining(cfg, crashed, q)| <= cfg.n / 2;
    p := AnotherSurvivor(cfg, crashed, q);
    x := Disagreement(cfg, m, crashed, p, q);
  }

  /** Main result: after a minority crash, the survivors are sure to deliver the same messages exactly
      when each of them still has a majority of all processes around it. The same condition decides
      whether they are sure to deliver what a crashed process delivered. */
  lemma AgreementIff(cfg: Config, m: nat, crashed: set<nat>)
    requires Program.Valid(cfg, m) && m >= 1 && Dissemination.OnRing(cfg) && Minority(cfg, crashed)
    ensures MajorityAroundAll(cfg, crashed)
       <==> forall x :: AtRestAfter(cfg, m, crashed, x) ==> SurvivorsAgree(cfg, x.sys)
    ensures MajorityAroundAll(cfg, crashed)
       <==> forall x :: AtRestAfter(cfg, m, crashed, x) ==> UniformlyAgree(cfg, x.sys)
  {
    if MajorityAroundAll(cfg, crashed) {
      forall x | AtRestAfter(cfg, m, crashed, x)
        ensures UniformlyAgree(cfg, x.sys) && SurvivorsAgree(cfg, x.sys)
      {
        RestAgrees(cfg, m, crashed, x);
      }
    } else {
      var x, p, q := SomeDisagreement(cfg, m, crashed);
      assert !SurvivorsAgree(cfg, x.sys) && !UniformlyAgree(cfg, x.sys);
    }
  }

  // ------------------------------------------------------------------------------------------
  // How many crashes are harmless
  // ------------------------------------------------------------------------------------------

  /** The neighbours that a process can do without. */
  function Spare(n: nat): int {
    2 * Ring.PerSide(n) - n / 2
  }

  lemma RemainingSize(cfg: Config, crashed: set<nat>, p: nat)
    requires cfg.n >= 3 && Dissemination.OnRing(cfg) && p < cfg.n && p !in crashed
    ensures |Remaining(cfg, crashed, p)| == 2 * Ring.PerSide(cfg.n) + 1 - |crashed * Ring.Around(p, cfg.n)|
  {
    var around, remaining := Ring.Around(p, cfg.n), Remaining(cfg, crashed, p);
    Ring.AroundSize(p, cfg.n);
    forall a: nat
      ensures a in remaining <==> a in around - crashed + {p}
    {
      if a < cfg.n {
        Ring.AdjacentIffClose(a, p, cfg.n);
        assert Ring.Close(a, p, cfg.n) <==> Ring.Close(p, a, cfg.n);
      }
    }
    assert remaining == around - crashed + {p};
    assert around == (around - crashed) + crashed * around;
  }

  lemma {:induction false} SubsetOfSize(big: set<nat>, size: nat) returns (small: set<nat>)
    requires size <= |big|
    ensures small <= big && |small| == size
    decreases size
  {
    if size == 0 {
      small := {};
    } else {
      small := SubsetOfSize(big, size - 1);
      if x :| x in big && x !in small {
        small := small + {x};
      } else {
        FiniteSets.SubsetSize(big, small);
        assert false;
      }
    }
  }

  lemma SpareSuffices(cfg: Config, crashed: set<nat>)
    requires cfg.n >= 3 && Dissemination.OnRing(cfg) && |crashed| <= Spare(cfg.n)
    ensures MajorityAroundAll(cfg, crashed)
  {
    forall p: nat | p < cfg.n && p !in crashed
      ensures |Remaining(cfg, crashed, p)| > cfg.n / 2
    {
      RemainingSize(cfg, crashed, p);
      FiniteSets.SubsetSize(crashed * Ring.Around(p, cfg.n), crashed);
    }
  }

  lemma OneTooMany(cfg: Config) returns (crashed: set<nat>)
    requires cfg.n >= 3 && Dissemination.OnRing(cfg)
    ensures crashed <= Ring.Everyone(cfg.n) && |crashed| == Spare(cfg.n) + 1 && !MajorityAroundAll(cfg, crashed)
  {
    var around := Ring.Around(0, cfg.n);
    Ring.AroundSize(0, cfg.n);
    crashed := SubsetOfSize(around, Spare(cfg.n) + 1);
    assert crashed * around == crashed;
    RemainingSize(cfg, crashed, 0);
  }

  ghost predicate AgreeAfter(cfg: Config, m: nat, crashed: set<nat>) {
    forall x :: AtRestAfter(cfg, m, crashed, x) ==> SurvivorsAgree(cfg, x.sys)
  }

  lemma AgreeAfterIff(cfg: Config, m: nat, crashed: set<nat>)
    requires Program.Valid(cfg, m) && m >= 1 && Dissemination.OnRing(cfg) && Minority(cfg, crashed)
    ensures AgreeAfter(cfg, m, crashed) <==> MajorityAroundAll(cfg, crashed)
  {
    AgreementIff(cfg, m, crashed);
  }

  /** No spare neighbours when `n` is a multiple of four, and never more than two. */
  lemma SpareValue(n: nat)
    ensures Spare(n) == match n % 4 case 0 => 0 case 1 => 2 case _ => 1
  {
    var m := n / 4;
    assert n == 4 * m + n % 4;
    if n % 4 == 0 {
      assert Ring.PerSide(n) == m && n / 2 == 2 * m;
    } else {
      assert Ring.PerSide(n) == m + 1;
    }
  }

  ghost predicate AgreeAfterUpTo(cfg: Config, m: nat, f: nat) {
    forall crashed :: crashed <= Ring.Everyone(cfg.n) && |crashed| <= f ==> AgreeAfter(cfg, m, crashed)
  }

  /** Main result: agreement is safe from every crash of up to `f` processes exactly when `f` does not
      exceed the spare neighbours. */
  lemma HarmlessCrashes(cfg: Config, m: nat, f: nat)
    requires Program.Valid(cfg, m) && m >= 1 && cfg.n >= 3 && Dissemination.OnRing(cfg) && 2 * f < cfg.n
    ensures AgreeAfterUpTo(cfg, m, f) <==> f <= Spare(cfg.n)
  {
    if f <= Spare(cfg.n) {
      forall crashed | crashed <= Ring.Everyone(cfg.n) && |crashed| <= f
        ensures AgreeAfter(cfg, m, crashed)
      {
        SpareSuffices(cfg, crashed);
        AgreeAfterIff(cfg, m, crashed);
      }
    } else {
      var crashed := OneTooMany(cfg);
      AgreeAfterIff(cfg, m, crashed);
    }
  }
}
