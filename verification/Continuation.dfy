/** Every reachable state can go on: what is under way between processes that are up can arrive, and
    then the workers can finish. */
module Continuation {
  import opened Messages
  import opened Protocol
  import opened LossySystem
  import opened Transmission
  import Dissemination
  import Link
  import Program
  import Quorum
  import Ring

  // ------------------------------------------------------------------------------------------
  // Going on from a state
  // ------------------------------------------------------------------------------------------

  /** Every process that is up has broadcast all its messages. */
  ghost predicate AllSent(cfg: Config, m: nat, s: State)
    requires Shape(cfg, s)
  {
    forall p :: 0 <= p < cfg.n && p !in s.crashed ==> s.procs[p].next == m
  }

  /** Where a run comes from, and the quotas that do not matter to it any more. */
  datatype Origin = Origin(m: nat, start: Program.State, quota: seq<nat>)

  /** A run of the program goes from the origin to `s`, where there is nothing left to broadcast. */
  ghost predicate Leads(cfg: Config, origin: Origin, s: State) {
    && Shape(cfg, s) && AllSent(cfg, origin.m, s)
    && Program.Leads(cfg, origin.m, origin.start, Program.State(s, origin.quota))
  }

  lemma ReactionKeepsSent(cfg: Config, m: nat, s: State, s': State)
    requires Shape(cfg, s) && Shape(cfg, s') && AllSent(cfg, m, s) && Reaction(cfg, s, s')
    ensures AllSent(cfg, m, s')
  {}

  /** Without anything to broadcast, a process may always receive. */
  lemma ReactionIsStep(cfg: Config, m: nat, s: State, s': State, quota: seq<nat>)
    requires Shape(cfg, s) && Shape(cfg, s') && AllSent(cfg, m, s) && Reaction(cfg, s, s') && |quota| == cfg.n
    ensures Program.Next(cfg, m, Program.State(s, quota), Program.State(s', quota))
  {
    var x, x' := Program.State(s, quota), Program.State(s', quota);
    if p: nat, q: nat, f :| ArrivalStep(cfg, s, s', p, q, f) {
      assert Program.Arrives(cfg, m, x, x', p, q, f);
    } else if p: nat, q: nat :| LinkStep(cfg, s, s', p, q) {
      if Link.IsWork(s.links[p][q], s'.links[p][q]) {
        assert Program.Works(cfg, x, x', p, q);
      } else {
        assert Program.Acknowledged(cfg, m, x, x', p, q);
      }
    } else {
      var p: nat :| CrashStep(s, s', p);
      assert Program.Crashes(x, x', p);
    }
  }

  lemma ReactionLeads(cfg: Config, origin: Origin, s: State, s': State)
    requires Leads(cfg, origin, s) && Shape(cfg, s') && Reaction(cfg, s, s')
    ensures Leads(cfg, origin, s')
  {
    ReactionKeepsSent(cfg, origin.m, s, s');
    ReactionIsStep(cfg, origin.m, s, s', origin.quota);
    Program.StepLeads(cfg, origin.m, Program.State(s, origin.quota), Program.State(s', origin.quota));
    Program.LeadsOn(cfg, origin.m, origin.start, Program.State(s, origin.quota), Program.State(s', origin.quota));
  }

  /** One more step of a run. */
  lemma OneStep(cfg: Config, origin: Origin, s: State, s': State)
    requires Good(cfg, s) && Leads(cfg, origin, s) && Shape(cfg, s') && Reaction(cfg, s, s')
    ensures Good(cfg, s') && Leads(cfg, origin, s')
  {
    NextGood(cfg, s, s');
    ReactionLeads(cfg, origin, s, s');
  }

  // ------------------------------------------------------------------------------------------
  // Steps that are possible
  // ------------------------------------------------------------------------------------------

  ghost function FanoutOf(cfg: Config, links: seq<seq<Link.State>>, p: nat, b: Body): seq<seq<Link.State>>
    requires |links| == cfg.n && forall a :: 0 <= a < cfg.n ==> |links[a]| == cfg.n
  {
    seq(cfg.n, a requires 0 <= a < cfg.n => seq(cfg.n, q requires 0 <= q < cfg.n =>
      if a == p && (a, q) in cfg.links then Link.Send(links[a][q], b) else links[a][q]))
  }

  /** The contents of the links are messages of this configuration. */
  ghost predicate LinksAdmitted(cfg: Config, links: seq<seq<Link.State>>)
    requires |links| == cfg.n && forall p :: 0 <= p < cfg.n ==> |links[p]| == cfg.n
  {
    forall p, q :: 0 <= p < cfg.n && 0 <= q < cfg.n ==> LinkAdmitted(cfg, links[p][q])
  }

  ghost predicate LinkAdmitted(cfg: Config, l: Link.State) {
    && (forall b :: b in l.issued ==> cfg.Admits(b))
    && forall f :: f in l.wire ==> cfg.Admits(f.body)
  }

  lemma FanoutOfAdmitted(cfg: Config, links: seq<seq<Link.State>>, p: nat, b: Body)
    requires |links| == cfg.n && forall a :: 0 <= a < cfg.n ==> |links[a]| == cfg.n
    requires LinksAdmitted(cfg, links) && cfg.Admits(b)
    ensures LinksAdmitted(cfg, FanoutOf(cfg, links, p, b))
  {
    forall a, q | 0 <= a < cfg.n && 0 <= q < cfg.n
      ensures LinkAdmitted(cfg, FanoutOf(cfg, links, p, b)[a][q])
    {
      assert LinkAdmitted(cfg, links[a][q]);
    }
  }

  lemma FanoutOfIsFanout(cfg: Config, links: seq<seq<Link.State>>, p: nat, b: Body)
    requires |links| == cfg.n && forall a :: 0 <= a < cfg.n ==> |links[a]| == cfg.n
    requires forall q :: 0 <= q < cfg.n && p < cfg.n ==> links[p][q].sender.next < Link.TOP_BIT
    ensures Fanout(cfg, links, FanoutOf(cfg, links, p, b), p, b)
  {}

  ghost function AfterBroadcast(cfg: Config, s: State, p: nat): State
    requires Shape(cfg, s) && p < cfg.n
  {
    var b := NextBody(cfg, p, s.procs[p]);
    State(s.procs[p := OnBroadcast(cfg, p, s.procs[p])], FanoutOf(cfg, s.links, p, b), s.history + [b], s.crashed)
  }

  lemma SendersBelowTop(cfg: Config, s: State)
    requires Good(cfg, s) && |s.history| < Link.TOP_BIT
    ensures forall p, q :: 0 <= p < cfg.n && 0 <= q < cfg.n ==> s.links[p][q].sender.next < Link.TOP_BIT
  {
    forall p, q | 0 <= p < cfg.n && 0 <= q < cfg.n
      ensures s.links[p][q].sender.next < Link.TOP_BIT
    {
      IssuedBound(cfg, s, p, q);
    }
  }

  lemma ShapeAdmits(cfg: Config, s: State)
    requires Shape(cfg, s)
    ensures LinksAdmitted(cfg, s.links)
  {}

  lemma BroadcastEnabled(cfg: Config, s: State, p: nat)
    requires Good(cfg, s) && p < cfg.n && p !in s.crashed && |s.history| < Link.TOP_BIT
    ensures Shape(cfg, AfterBroadcast(cfg, s, p)) && BroadcastStep(cfg, s, AfterBroadcast(cfg, s, p), p)
  {
    var b, s' := NextBody(cfg, p, s.procs[p]), AfterBroadcast(cfg, s, p);
    ShapeAdmits(cfg, s);
    FanoutOfAdmitted(cfg, s.links, p, b);
    SendersBelowTop(cfg, s);
    FanoutOfIsFanout(cfg, s.links, p, b);
    BroadcastIsStep(cfg, s, p);
  }

  lemma BroadcastIsStep(cfg: Config, s: State, p: nat)
    requires Shape(cfg, s) && p < cfg.n && p !in s.crashed
    requires var b := NextBody(cfg, p, s.procs[p]);
      && LinksAdmitted(cfg, FanoutOf(cfg, s.links, p, b))
      && Fanout(cfg, s.links, FanoutOf(cfg, s.links, p, b), p, b)
    ensures Shape(cfg, AfterBroadcast(cfg, s, p)) && BroadcastStep(cfg, s, AfterBroadcast(cfg, s, p), p)
  {
    var s' := AfterBroadcast(cfg, s, p);
    assert forall a, q :: 0 <= a < cfg.n && 0 <= q < cfg.n ==> LinkAdmitted(cfg, s'.links[a][q]);
    assert Shape(cfg, s');
    assert BroadcastStep(cfg, s, s', p);
  }

  ghost function AfterArrival(cfg: Config, s: State, p: nat, q: nat, i: nat): State
    requires Shape(cfg, s) && p < cfg.n && q < cfg.n && i < |s.links[p][q].issued|
  {
    var b := s.links[p][q].issued[i];
    var arrived := Arrived(s.links, p, q, Link.Frame(i, b));
    State(s.procs[q := OnReceive(cfg, q, s.procs[q], p, b)],
          if Relays(s.procs[q], b.Id()) then FanoutOf(cfg, arrived, q, b) else arrived, s.history, s.crashed)
  }

  lemma ArrivedKeepsSenders(cfg: Config, links: seq<seq<Link.State>>, p: nat, q: nat, f: Link.Frame)
    requires |links| == cfg.n && forall a :: 0 <= a < cfg.n ==> |links[a]| == cfg.n
    requires p < cfg.n && q < cfg.n && LinksAdmitted(cfg, links)
    ensures var links' := Arrived(links, p, q, f);
      && LinksAdmitted(cfg, links')
      && forall a, c :: 0 <= a < cfg.n && 0 <= c < cfg.n ==> links'[a][c].sender == links[a][c].sender
  {
    var links' := Arrived(links, p, q, f);
    forall a, c | 0 <= a < cfg.n && 0 <= c < cfg.n
      ensures LinkAdmitted(cfg, links'[a][c]) && links'[a][c].sender == links[a][c].sender
    {
      assert LinkAdmitted(cfg, links[a][c]);
    }
  }

  lemma ArrivalFits(cfg: Config, links: seq<seq<Link.State>>, p: nat, q: nat, f: Link.Frame, b: Body)
    requires |links| == cfg.n && forall a :: 0 <= a < cfg.n ==> |links[a]| == cfg.n
    requires p < cfg.n && q < cfg.n && LinksAdmitted(cfg, links) && cfg.Admits(b)
    requires forall a, c :: 0 <= a < cfg.n && 0 <= c < cfg.n ==> links[a][c].sender.next < Link.TOP_BIT
    ensures var arrived := Arrived(links, p, q, f);
      && LinksAdmitted(cfg, arrived) && LinksAdmitted(cfg, FanoutOf(cfg, arrived, q, b))
      && Fanout(cfg, arrived, FanoutOf(cfg, arrived, q, b), q, b)
  {
    ArrivedKeepsSenders(cfg, links, p, q, f);
    FanoutOfAdmitted(cfg, Arrived(links, p, q, f), q, b);
    FanoutOfIsFanout(cfg, Arrived(links, p, q, f), q, b);
  }

  lemma ArrivalEnabled(cfg: Config, s: State, p: nat, q: nat, i: nat)
    requires Good(cfg, s) && p < cfg.n && q < cfg.n && q !in s.crashed && |s.history| < Link.TOP_BIT
    requires i < |s.links[p][q].issued| && i !in s.links[p][q].delivered
    ensures Shape(cfg, AfterArrival(cfg, s, p, q, i)) && Reaction(cfg, s, AfterArrival(cfg, s, p, q, i))
    ensures ArrivalStep(cfg, s, AfterArrival(cfg, s, p, q, i), p, q, Link.Frame(i, s.links[p][q].issued[i]))
  {
    var b := s.links[p][q].issued[i];
    var f := Link.Frame(i, b);
    OnWire(s.links[p][q], i);
    ShapeAdmits(cfg, s);
    SendersBelowTop(cfg, s);
    ArrivalFits(cfg, s.links, p, q, f, b);
    ArrivalIsStep(cfg, s, p, q, i);
  }

  lemma OnWire(l: Link.State, i: nat)
    requires Link.Inv(l) && Transmitted(l) && i < |l.issued|
    ensures var f := Link.Frame(i, l.issued[i]); f in l.wire && Link.IsSyn(f) && Link.SeqNum(f) == i
  {}

  lemma ArrivalIsStep(cfg: Config, s: State, p: nat, q: nat, i: nat)
    requires Shape(cfg, s) && p < cfg.n && q < cfg.n && q !in s.crashed
    requires i < |s.links[p][q].issued| && i !in s.links[p][q].delivered
    requires var b := s.links[p][q].issued[i]; var f := Link.Frame(i, b); var arrived := Arrived(s.links, p, q, f);
      && f in s.links[p][q].wire && Link.IsSyn(f) && Link.SeqNum(f) == i
      && LinksAdmitted(cfg, arrived) && LinksAdmitted(cfg, FanoutOf(cfg, arrived, q, b))
      && Fanout(cfg, arrived, FanoutOf(cfg, arrived, q, b), q, b)
    ensures Shape(cfg, AfterArrival(cfg, s, p, q, i))
    ensures ArrivalStep(cfg, s, AfterArrival(cfg, s, p, q, i), p, q, Link.Frame(i, s.links[p][q].issued[i]))
    ensures Reaction(cfg, s, AfterArrival(cfg, s, p, q, i))
  {
    var s' := AfterArrival(cfg, s, p, q, i);
    assert forall a, c :: 0 <= a < cfg.n && 0 <= c < cfg.n ==> LinkAdmitted(cfg, s'.links[a][c]);
    assert Shape(cfg, s');
    assert ArrivalStep(cfg, s, s', p, q, Link.Frame(i, s.links[p][q].issued[i]));
  }

  // ------------------------------------------------------------------------------------------
  // Letting messages arrive
  // ------------------------------------------------------------------------------------------

  /** The same broadcasts, the same crashes, and nothing forgotten. */
  ghost predicate Later(cfg: Config, s: State, s': State)
    requires Shape(cfg, s) && Shape(cfg, s')
  {
    && s'.history == s.history && s'.crashed == s.crashed
    && forall p :: 0 <= p < cfg.n ==>
         s.procs[p].urb.pending <= s'.procs[p].urb.pending && s.procs[p].urb.delivered <= s'.procs[p].urb.delivered
  }

  /** Nothing more was handed up except on the given links. */
  ghost predicate OnlyOn(cfg: Config, s: State, s': State, links: set<(nat, nat)>)
    requires Shape(cfg, s) && Shape(cfg, s')
  {
    forall p, q :: 0 <= p < cfg.n && 0 <= q < cfg.n && (p, q) !in links ==>
      s'.links[p][q].delivered == s.links[p][q].delivered
  }

  /** The hand-ups that are still conceivable. */
  ghost function Room(cfg: Config, s: State): set<(nat, nat, nat)>
    requires Shape(cfg, s)
  {
    set p, q, i | p in Ring.Everyone(cfg.n) && q in Ring.Everyone(cfg.n) && i in Ring.Everyone(|s.history|)
                  && i !in s.links[p][q].delivered :: (p, q, i)
  }

  lemma ArrivalForgetsNothing(cfg: Config, s: State, p: nat, q: nat, i: nat)
    requires Shape(cfg, s) && p < cfg.n && q < cfg.n && i < |s.links[p][q].issued|
    requires Shape(cfg, AfterArrival(cfg, s, p, q, i))
    ensures Later(cfg, s, AfterArrival(cfg, s, p, q, i))
  {
    Quorum.AtMostOnce(cfg.n, q, s.procs[q].urb, p, s.links[p][q].issued[i].Id());
  }

  lemma FanoutHandsUpNothing(cfg: Config, links: seq<seq<Link.State>>, p: nat, b: Body, a: nat, c: nat)
    requires |links| == cfg.n && forall a :: 0 <= a < cfg.n ==> |links[a]| == cfg.n
    requires a < cfg.n && c < cfg.n
    ensures FanoutOf(cfg, links, p, b)[a][c].delivered == links[a][c].delivered
  {}

  lemma ArrivedHandsUp(cfg: Config, links: seq<seq<Link.State>>, p: nat, q: nat, i: nat, b: Body, a: nat, c: nat)
    requires |links| == cfg.n && forall a :: 0 <= a < cfg.n ==> |links[a]| == cfg.n
    requires p < cfg.n && q < cfg.n && a < cfg.n && c < cfg.n && i < Link.TOP_BIT
    ensures Arrived(links, p, q, Link.Frame(i, b))[a][c].delivered
         == links[a][c].delivered + if a == p && c == q then {i} else {}
  {}

  lemma DeliveredAfterArrival(cfg: Config, s: State, p: nat, q: nat, i: nat, a: nat, c: nat)
    requires Shape(cfg, s) && p < cfg.n && q < cfg.n && a < cfg.n && c < cfg.n
    requires i < |s.links[p][q].issued| && i < Link.TOP_BIT
    ensures var links' := AfterArrival(cfg, s, p, q, i).links;
      && |links'| == cfg.n && |links'[a]| == cfg.n
      && links'[a][c].delivered == s.links[a][c].delivered + if a == p && c == q then {i} else {}
  {
    var b := s.links[p][q].issued[i];
    var arrived := Arrived(s.links, p, q, Link.Frame(i, b));
    FanoutHandsUpNothing(cfg, arrived, q, b, a, c);
    ArrivedHandsUp(cfg, s.links, p, q, i, b, a, c);
  }

  lemma ArrivalEffect(cfg: Config, s: State, s': State, p: nat, q: nat, i: nat)
    requires Shape(cfg, s) && Shape(cfg, s') && p < cfg.n && q < cfg.n
    requires i < |s.links[p][q].issued| && i !in s.links[p][q].delivered && i < Link.TOP_BIT
    requires s' == AfterArrival(cfg, s, p, q, i)
    ensures forall a, c :: 0 <= a < cfg.n && 0 <= c < cfg.n ==>
              s'.links[a][c].delivered == s.links[a][c].delivered + if a == p && c == q then {i} else {}
  {
    forall a, c | 0 <= a < cfg.n && 0 <= c < cfg.n
      ensures s'.links[a][c].delivered == s.links[a][c].delivered + if a == p && c == q then {i} else {}
    {
      DeliveredAfterArrival(cfg, s, p, q, i, a, c);
    }
  }

  lemma RoomShrinks(cfg: Config, s: State, s': State, p: nat, q: nat, i: nat)
    requires Shape(cfg, s) && Shape(cfg, s') && p < cfg.n && q < cfg.n && i < |s.history| && s'.history == s.history
    requires i !in s.links[p][q].delivered
    requires forall a, c :: 0 <= a < cfg.n && 0 <= c < cfg.n ==>
              s'.links[a][c].delivered == s.links[a][c].delivered + if a == p && c == q then {i} else {}
    ensures Room(cfg, s') < Room(cfg, s)
  {
    assert (p, q, i) in Room(cfg, s) && (p, q, i) !in Room(cfg, s');
  }

  lemma ArrivalPossible(cfg: Config, origin: Origin, s: State, p: nat, q: nat, i: nat)
    requires Good(cfg, s) && Leads(cfg, origin, s) && |s.history| < Link.TOP_BIT
    requires p < cfg.n && q < cfg.n && q !in s.crashed
    requires i < |s.links[p][q].issued| && i !in s.links[p][q].delivered
    ensures Good(cfg, AfterArrival(cfg, s, p, q, i)) && Leads(cfg, origin, AfterArrival(cfg, s, p, q, i))
    ensures i < |s.history|
  {
    IssuedBound(cfg, s, p, q);
    ArrivalEnabled(cfg, s, p, q, i);
    OneStep(cfg, origin, s, AfterArrival(cfg, s, p, q, i));
  }

  lemma ArrivalProgress(cfg: Config, s: State, p: nat, q: nat, i: nat)
    requires Shape(cfg, s) && p < cfg.n && q < cfg.n && i < |s.history| < Link.TOP_BIT
    requires i < |s.links[p][q].issued| && i !in s.links[p][q].delivered
    requires Shape(cfg, AfterArrival(cfg, s, p, q, i))
    ensures var s' := AfterArrival(cfg, s, p, q, i);
      Later(cfg, s, s') && OnlyOn(cfg, s, s', {(p, q)}) && Room(cfg, s') < Room(cfg, s)
  {
    ArrivalForgetsNothing(cfg, s, p, q, i);
    ArrivalEffect(cfg, s, AfterArrival(cfg, s, p, q, i), p, q, i);
    RoomShrinks(cfg, s, AfterArrival(cfg, s, p, q, i), p, q, i);
  }

  /** What the arrival of one message leads to. */
  lemma DriveStep(cfg: Config, origin: Origin, s: State, p: nat, q: nat, i: nat) returns (s': State)
    requires Good(cfg, s) && Leads(cfg, origin, s) && |s.history| < Link.TOP_BIT
    requires p < cfg.n && q < cfg.n && q !in s.crashed
    requires i < |s.links[p][q].issued| && i !in s.links[p][q].delivered
    ensures Good(cfg, s') && Leads(cfg, origin, s') && Later(cfg, s, s')
    ensures OnlyOn(cfg, s, s', {(p, q)}) && Room(cfg, s') < Room(cfg, s)
  {
    s' := AfterArrival(cfg, s, p, q, i);
    ArrivalPossible(cfg, origin, s, p, q, i);
    ArrivalProgress(cfg, s, p, q, i);
  }

  lemma LaterStill(cfg: Config, s: State, mid: State, s': State, p: nat, q: nat, links: set<(nat, nat)>)
    requires Shape(cfg, s) && Shape(cfg, mid) && Shape(cfg, s')
    requires Later(cfg, s, mid) && Later(cfg, mid, s')
    requires (p, q) in links && OnlyOn(cfg, s, mid, {(p, q)}) && OnlyOn(cfg, mid, s', links)
    ensures Later(cfg, s, s') && OnlyOn(cfg, s, s', links)
  {}

  ghost predicate AllHandedUp(l: Link.State) {
    forall i :: 0 <= i < |l.issued| ==> i in l.delivered
  }

  ghost predicate AllArrived(s: State, links: set<(nat, nat)>)
    requires forall l :: l in links ==> l.0 < |s.links| && l.1 < |s.links[l.0]|
  {
    forall l :: l in links ==> AllHandedUp(s.links[l.0][l.1])
  }

  lemma UnderWay(s: State, links: set<(nat, nat)>) returns (l: (nat, nat), i: nat)
    requires forall l :: l in links ==> l.0 < |s.links| && l.1 < |s.links[l.0]|
    requires !AllArrived(s, links)
    ensures l in links && i < |s.links[l.0][l.1].issued| && i !in s.links[l.0][l.1].delivered
  {
    l :| l in links && !AllHandedUp(s.links[l.0][l.1]);
    i :| i < |s.links[l.0][l.1].issued| && i !in s.links[l.0][l.1].delivered;
  }

  /** Everything that is under way on the given links can arrive, with all that is relayed on them. */
  lemma {:induction false} Drive(cfg: Config, origin: Origin, s: State, links: set<(nat, nat)>) returns (s': State)
    requires Good(cfg, s) && Leads(cfg, origin, s) && |s.history| < Link.TOP_BIT
    requires forall l :: l in links ==> l.0 < cfg.n && l.1 < cfg.n && l.1 !in s.crashed
    ensures Good(cfg, s') && Leads(cfg, origin, s') && Later(cfg, s, s') && OnlyOn(cfg, s, s', links)
    ensures AllArrived(s', links)
    decreases Room(cfg, s)
  {
    if AllArrived(s, links) {
      s' := s;
    } else {
      var l, i := UnderWay(s, links);
      var next := DriveStep(cfg, origin, s, l.0, l.1, i);
      s' := Drive(cfg, origin, next, links);
      LaterStill(cfg, s, next, s', l.0, l.1, links);
    }
  }

  // ------------------------------------------------------------------------------------------
  // Letting the workers finish
  // ------------------------------------------------------------------------------------------

  ghost function SetLink(s: State, p: nat, q: nat, l: Link.State): State
    requires p < |s.links| && q < |s.links[p]|
  {
    s.(links := s.links[p := s.links[p][q := l]])
  }

  lemma InternalAdmitted(cfg: Config, l: Link.State, l': Link.State)
    requires LinkAdmitted(cfg, l) && Link.Inv(l) && Link.IsInternal(l, l')
    ensures LinkAdmitted(cfg, l')
  {
    Link.InternalKeeps(l, l');
    forall f | f in l'.wire
      ensures cfg.Admits(f.body)
    {
      if f !in l.wire {
        assert f in l.sender.scheduled && Link.Genuine(l, f);
      }
    }
  }

  lemma InternalIsStep(cfg: Config, s: State, p: nat, q: nat, l: Link.State)
    requires Shape(cfg, s) && LinksInv(cfg, s.links) && p < cfg.n && q < cfg.n && p !in s.crashed
    requires Link.IsInternal(s.links[p][q], l)
    ensures var s' := SetLink(s, p, q, l); Shape(cfg, s') && LinkStep(cfg, s, s', p, q) && Reaction(cfg, s, s')
  {
    var s' := SetLink(s, p, q, l);
    InternalAdmitted(cfg, s.links[p][q], l);
    assert s'.links[p][q] == l;
    forall a, c | 0 <= a < cfg.n && 0 <= c < cfg.n
      ensures LinkAdmitted(cfg, s'.links[a][c])
    {
      assert LinkAdmitted(cfg, s.links[a][c]);
    }
    assert Shape(cfg, s');
    assert LinkStep(cfg, s, s', p, q);
  }

  /** The other links are as they were. */
  ghost predicate Elsewhere(cfg: Config, s: State, s': State, p: nat, q: nat)
    requires Shape(cfg, s) && Shape(cfg, s')
  {
    forall a, c :: 0 <= a < cfg.n && 0 <= c < cfg.n && (a != p || c != q) ==> s'.links[a][c] == s.links[a][c]
  }

  lemma SetLinkElsewhere(cfg: Config, s: State, p: nat, q: nat, l: Link.State)
    requires Shape(cfg, s) && p < cfg.n && q < cfg.n && Shape(cfg, SetLink(s, p, q, l))
    ensures SetLink(s, p, q, l).links[p][q] == l && Elsewhere(cfg, s, SetLink(s, p, q, l), p, q)
  {}

  lemma InternalOn(cfg: Config, origin: Origin, s: State, p: nat, q: nat, l: Link.State)
    requires Good(cfg, s) && Leads(cfg, origin, s) && p < cfg.n && q < cfg.n && p !in s.crashed
    requires Link.IsInternal(s.links[p][q], l)
    ensures Good(cfg, SetLink(s, p, q, l)) && Leads(cfg, origin, SetLink(s, p, q, l))
  {
    InternalIsStep(cfg, s, p, q, l);
    OneStep(cfg, origin, s, SetLink(s, p, q, l));
  }

  lemma InternalUnseen(cfg: Config, s: State, p: nat, q: nat, l: Link.State)
    requires Shape(cfg, s) && LinksInv(cfg, s.links) && p < cfg.n && q < cfg.n && p !in s.crashed
    requires Link.IsInternal(s.links[p][q], l)
    ensures var s' := SetLink(s, p, q, l); Shape(cfg, s') && Abs(cfg, s') == Abs(cfg, s)
  {
    InternalIsStep(cfg, s, p, q, l);
    LinkStepRefines(cfg, s, SetLink(s, p, q, l), p, q);
  }

  /** A worker step or an arriving acknowledgement. */
  lemma Act(cfg: Config, origin: Origin, s: State, p: nat, q: nat, l: Link.State) returns (s': State)
    requires Good(cfg, s) && Leads(cfg, origin, s) && p < cfg.n && q < cfg.n && p !in s.crashed
    requires Link.IsInternal(s.links[p][q], l)
    ensures Good(cfg, s') && Leads(cfg, origin, s') && Abs(cfg, s') == Abs(cfg, s) && Elsewhere(cfg, s, s', p, q)
    ensures s'.links[p][q] == l && s'.crashed == s.crashed
  {
    s' := SetLink(s, p, q, l);
    InternalOn(cfg, origin, s, p, q, l);
    InternalUnseen(cfg, s, p, q, l);
    SetLinkElsewhere(cfg, s, p, q, l);
  }

  lemma {:induction false} EmptyQueue(cfg: Config, origin: Origin, s: State, p: nat, q: nat) returns (s': State)
    requires Good(cfg, s) && Leads(cfg, origin, s) && p < cfg.n && q < cfg.n && p !in s.crashed
    ensures Good(cfg, s') && Leads(cfg, origin, s') && Abs(cfg, s') == Abs(cfg, s) && Elsewhere(cfg, s, s', p, q)
    ensures s'.links[p][q].sender.incoming == []
    decreases |s.links[p][q].sender.incoming|
  {
    var l := s.links[p][q];
    if l.sender.incoming == [] {
      s' := s;
    } else {
      var l' := l.(sender := Link.Take(l.sender));
      var next := Act(cfg, origin, s, p, q, l');
      s' := EmptyQueue(cfg, origin, next, p, q);
    }
  }

  /** Taking the acknowledgement of a scheduled message frees its entry. */
  lemma AckFreesEntry(l: Link.State, f: Link.Frame) returns (noted: Link.State, taken: Link.State, expired: Link.State)
    requires l.sender.incoming == [] && f in l.sender.scheduled && Link.SetAck(f) in l.acks && Link.IsSyn(f)
    ensures Link.IsInternal(l, noted) && Link.IsInternal(noted, taken) && Link.IsInternal(taken, expired)
    ensures expired.sender.incoming == [] && expired.sender.scheduled == l.sender.scheduled - multiset{f}
  {
    var ack := Link.SetAck(f);
    Link.AckEncoding(f);
    noted := l.(sender := Link.NoteAck(l.sender, ack));
    assert noted.sender.incoming == [ack];
    taken := noted.(sender := Link.Take(noted.sender));
    expired := taken.(sender := Link.Expire(taken.sender, f));
  }

  lemma FreeEntry(cfg: Config, origin: Origin, s: State, p: nat, q: nat, f: Link.Frame) returns (s': State)
    requires Good(cfg, s) && Leads(cfg, origin, s) && p < cfg.n && q < cfg.n && p !in s.crashed
    requires var l := s.links[p][q];
      l.sender.incoming == [] && f in l.sender.scheduled && Link.SetAck(f) in l.acks && Link.IsSyn(f)
    ensures Good(cfg, s') && Leads(cfg, origin, s') && Abs(cfg, s') == Abs(cfg, s) && Elsewhere(cfg, s, s', p, q)
    ensures s'.links[p][q].sender.incoming == []
    ensures s'.links[p][q].sender.scheduled == s.links[p][q].sender.scheduled - multiset{f}
  {
    var noted, taken, expired := AckFreesEntry(s.links[p][q], f);
    var s1 := Act(cfg, origin, s, p, q, noted);
    var s2 := Act(cfg, origin, s1, p, q, taken);
    s' := Act(cfg, origin, s2, p, q, expired);
  }

  lemma ScheduledAcknowledged(cfg: Config, s: State, p: nat, q: nat, f: Link.Frame)
    requires Good(cfg, s) && p < cfg.n && q < cfg.n && f in s.links[p][q].sender.scheduled
    requires AllHandedUp(s.links[p][q])
    ensures Link.IsSyn(f) && Link.SetAck(f) in s.links[p][q].acks
  {
    var l := s.links[p][q];
    assert Link.Inv(l) && Transmitted(l) && Link.Genuine(l, f);
  }

  lemma SameContents(cfg: Config, s: State, s': State, p: nat, q: nat)
    requires Shape(cfg, s) && Shape(cfg, s') && Abs(cfg, s') == Abs(cfg, s) && p < cfg.n && q < cfg.n
    ensures s'.links[p][q].issued == s.links[p][q].issued && s'.links[p][q].delivered == s.links[p][q].delivered
    ensures s'.procs == s.procs && s'.history == s.history && s'.crashed == s.crashed
  {
    assert Abs(cfg, s').net[p][q] == Abs(cfg, s).net[p][q];
  }

  /** One entry less, with everything still handed up. */
  lemma FreeOne(cfg: Config, origin: Origin, s: State, p: nat, q: nat) returns (s': State)
    requires Good(cfg, s) && Leads(cfg, origin, s) && p < cfg.n && q < cfg.n && p !in s.crashed
    requires s.links[p][q].sender.incoming == [] && s.links[p][q].sender.scheduled != multiset{}
    requires AllHandedUp(s.links[p][q])
    ensures Good(cfg, s') && Leads(cfg, origin, s') && Abs(cfg, s') == Abs(cfg, s) && Elsewhere(cfg, s, s', p, q)
    ensures s'.links[p][q].sender.incoming == [] && s'.crashed == s.crashed
    ensures |s'.links[p][q].sender.scheduled| < |s.links[p][q].sender.scheduled|
    ensures AllHandedUp(s'.links[p][q])
  {
    var f :| f in s.links[p][q].sender.scheduled;
    ScheduledAcknowledged(cfg, s, p, q, f);
    s' := FreeEntry(cfg, origin, s, p, q, f);
    OneLess(s.links[p][q].sender.scheduled, s'.links[p][q].sender.scheduled, f);
    SameContents(cfg, s, s', p, q);
  }

  lemma OneLess(before: multiset<Link.Frame>, after: multiset<Link.Frame>, f: Link.Frame)
    requires f in before && after == before - multiset{f}
    ensures |after| < |before|
  {}

  lemma ElsewhereStill(cfg: Config, s: State, mid: State, s': State, p: nat, q: nat)
    requires Shape(cfg, s) && Shape(cfg, mid) && Shape(cfg, s')
    requires Elsewhere(cfg, s, mid, p, q) && Elsewhere(cfg, mid, s', p, q)
    ensures Elsewhere(cfg, s, s', p, q)
  {}

  lemma {:induction false} ClearHeap(cfg: Config, origin: Origin, s: State, p: nat, q: nat) returns (s': State)
    requires Good(cfg, s) && Leads(cfg, origin, s) && p < cfg.n && q < cfg.n && p !in s.crashed
    requires s.links[p][q].sender.incoming == []
    requires AllHandedUp(s.links[p][q])
    ensures Good(cfg, s') && Leads(cfg, origin, s') && Abs(cfg, s') == Abs(cfg, s) && Elsewhere(cfg, s, s', p, q)
    ensures Link.Idle(s'.links[p][q].sender)
    decreases |s.links[p][q].sender.scheduled|
  {
    if s.links[p][q].sender.scheduled != multiset{} {
      var next := FreeOne(cfg, origin, s, p, q);
      s' := ClearHeap(cfg, origin, next, p, q);
      ElsewhereStill(cfg, s, next, s', p, q);
    } else {
      s' := s;
    }
  }

  lemma Settle(cfg: Config, origin: Origin, s: State, p: nat, q: nat) returns (s': State)
    requires Good(cfg, s) && Leads(cfg, origin, s) && p < cfg.n && q < cfg.n && p !in s.crashed
    requires AllHandedUp(s.links[p][q])
    ensures Good(cfg, s') && Leads(cfg, origin, s') && Abs(cfg, s') == Abs(cfg, s) && Elsewhere(cfg, s, s', p, q)
    ensures Link.Idle(s'.links[p][q].sender)
  {
    var emptied := EmptyQueue(cfg, origin, s, p, q);
    SameContents(cfg, s, emptied, p, q);
    s' := ClearHeap(cfg, origin, emptied, p, q);
  }

  /** The workers of all given links can finish, one after the other. */
  lemma {:induction false} SettleAll(cfg: Config, origin: Origin, s: State, links: set<(nat, nat)>) returns (s': State)
    requires Good(cfg, s) && Leads(cfg, origin, s)
    requires forall l :: l in links ==> l.0 < cfg.n && l.1 < cfg.n && l.0 !in s.crashed
    requires AllArrived(s, links)
    ensures Good(cfg, s') && Leads(cfg, origin, s') && Abs(cfg, s') == Abs(cfg, s)
    ensures forall l :: l in links ==> Link.Idle(s'.links[l.0][l.1].sender)
    ensures Untouched(cfg, s, s', links)
    decreases links
  {
    if l :| l in links {
      assert AllArrived(s, links - {l});
      var before := SettleAll(cfg, origin, s, links - {l});
      SameContents(cfg, s, before, l.0, l.1);
      s' := Settle(cfg, origin, before, l.0, l.1);
      OneMoreIdle(cfg, s, before, s', links, l);
    } else {
      s' := s;
    }
  }

  ghost predicate Untouched(cfg: Config, s: State, s': State, links: set<(nat, nat)>)
    requires Shape(cfg, s) && Shape(cfg, s')
  {
    forall a, c :: 0 <= a < cfg.n && 0 <= c < cfg.n && (a, c) !in links ==> s'.links[a][c] == s.links[a][c]
  }

  lemma OneMoreIdle(cfg: Config, s: State, mid: State, s': State, links: set<(nat, nat)>, last: (nat, nat))
    requires Shape(cfg, s) && Shape(cfg, mid) && Shape(cfg, s') && last in links
    requires forall l :: l in links ==> l.0 < cfg.n && l.1 < cfg.n
    requires forall l :: l in links - {last} ==> Link.Idle(mid.links[l.0][l.1].sender)
    requires Untouched(cfg, s, mid, links - {last}) && Elsewhere(cfg, mid, s', last.0, last.1)
    requires Link.Idle(s'.links[last.0][last.1].sender)
    ensures forall l :: l in links ==> Link.Idle(s'.links[l.0][l.1].sender)
    ensures Untouched(cfg, s, s', links)
  {
    forall l | l in links
      ensures Link.Idle(s'.links[l.0][l.1].sender)
    {
      if l != last {
        assert l.0 != last.0 || l.1 != last.1;
        assert s'.links[l.0][l.1] == mid.links[l.0][l.1];
      }
    }
  }

  ghost function BetweenSurvivors(cfg: Config, crashed: set<nat>): set<(nat, nat)> {
    set p, q | p in Ring.Everyone(cfg.n) && q in Ring.Everyone(cfg.n) && p !in crashed && q !in crashed :: (p, q)
  }

  /** From any state the links between survivors can come to rest. */
  lemma Rest(cfg: Config, origin: Origin, s: State) returns (s': State)
    requires Good(cfg, s) && Leads(cfg, origin, s) && |s.history| < Link.TOP_BIT
    ensures Good(cfg, s') && Leads(cfg, origin, s') && Later(cfg, s, s') && SurvivorsIdle(cfg, s')
    ensures OnlyOn(cfg, s, s', BetweenSurvivors(cfg, s.crashed))
  {
    var links := BetweenSurvivors(cfg, s.crashed);
    var arrived := Drive(cfg, origin, s, links);
    s' := SettleAll(cfg, origin, arrived, links);
    SameDeliveries(cfg, arrived, s');
    AllIdle(cfg, s', links);
  }

  lemma SameDeliveries(cfg: Config, s: State, s': State)
    requires Shape(cfg, s) && Shape(cfg, s') && Abs(cfg, s') == Abs(cfg, s)
    ensures s'.procs == s.procs && s'.history == s.history && s'.crashed == s.crashed
    ensures forall p, q :: 0 <= p < cfg.n && 0 <= q < cfg.n ==> s'.links[p][q].delivered == s.links[p][q].delivered
  {
    forall p, q | 0 <= p < cfg.n && 0 <= q < cfg.n
      ensures s'.links[p][q].delivered == s.links[p][q].delivered
    {
      SameContents(cfg, s, s', p, q);
    }
  }

  lemma AllIdle(cfg: Config, s: State, links: set<(nat, nat)>)
    requires Shape(cfg, s) && links == BetweenSurvivors(cfg, s.crashed)
    requires forall l :: l in links ==> Link.Idle(s.links[l.0][l.1].sender)
    ensures SurvivorsIdle(cfg, s)
  {
    forall p, q | 0 <= p < cfg.n && 0 <= q < cfg.n && p !in s.crashed && q !in s.crashed
      ensures Link.Idle(s.links[p][q].sender)
    {
      assert (p, q) in links;
    }
  }

  /** Links between survivors that are idle have nothing left to hand up. */
  lemma IdleIsQuiet(cfg: Config, s: State)
    requires Shape(cfg, s) && LinksInv(cfg, s.links) && SurvivorsIdle(cfg, s)
    ensures Dissemination.Quiet(cfg, Abs(cfg, s))
  {
    var abs := Abs(cfg, s);
    forall p, q, i | p in Dissemination.Survivors(cfg, abs) && q in Dissemination.Survivors(cfg, abs)
                     && 0 <= i < |abs.net[p][q].issued|
      ensures i in abs.net[p][q].received
    {
      assert Link.Inv(s.links[p][q]) && Link.Idle(s.links[p][q].sender);
      IdleLinkIsQuiet(cfg, s, p, q, i);
    }
  }

  lemma IdleLinkIsQuiet(cfg: Config, s: State, p: nat, q: nat, i: nat)
    requires Shape(cfg, s) && p < cfg.n && q < cfg.n
    requires Link.Inv(s.links[p][q]) && Link.Idle(s.links[p][q].sender)
    requires i < |Abs(cfg, s).net[p][q].issued|
    ensures i in Abs(cfg, s).net[p][q].received
  {
    Link.IdleMeansDelivered(s.links[p][q]);
  }
}
