/** All processes together over links that retransmit on a network that loses, duplicates and reorders.
    Besides the main loops, every link has a worker that acts on its own. Hiding the links gives
    `System`. */
module LossySystem {
  import opened Messages
  import opened Protocol
  import CausalOrder
  import Hearing
  import Invariants
  import Link
  import System

  datatype State = State(procs: seq<Proc>, links: seq<seq<Link.State>>, history: seq<Body>, crashed: set<nat>)

  ghost predicate Shape(cfg: Config, s: State) {
    && cfg.Valid()
    && |s.procs| == |s.links| == cfg.n
    && (forall p :: 0 <= p < cfg.n ==> |s.links[p]| == cfg.n)
    && (forall p :: 0 <= p < cfg.n ==> CausalOrder.WellFormed(cfg, s.procs[p].lcb))
    && (forall b :: b in s.history ==> cfg.Admits(b))
    && (forall p, q, b :: 0 <= p < cfg.n && 0 <= q < cfg.n && b in s.links[p][q].issued ==> cfg.Admits(b))
    && forall p, q, f :: 0 <= p < cfg.n && 0 <= q < cfg.n && f in s.links[p][q].wire ==> cfg.Admits(f.body)
  }

  ghost predicate Start(cfg: Config, s: State) {
    && Shape(cfg, s)
    && (forall p :: 0 <= p < cfg.n ==> s.procs[p] == Init(cfg.n))
    && (forall p, q :: 0 <= p < cfg.n && 0 <= q < cfg.n ==> s.links[p][q] == Link.FRESH)
    && s.history == [] && s.crashed == {}
  }

  /** `p` sends `b` on each of its links; numbers do not run out. */
  ghost predicate Fanout(cfg: Config, links: seq<seq<Link.State>>, links': seq<seq<Link.State>>, p: nat, b: Body)
    requires |links| == |links'| == cfg.n
    requires forall a :: 0 <= a < cfg.n ==> |links[a]| == |links'[a]| == cfg.n
  {
    forall a, q :: 0 <= a < cfg.n && 0 <= q < cfg.n ==>
      if a == p && (a, q) in cfg.links then Link.IsSend(links[a][q], links'[a][q], b)
      else links'[a][q] == links[a][q]
  }

  function Arrived(links: seq<seq<Link.State>>, p: nat, q: nat, f: Link.Frame): seq<seq<Link.State>>
    requires p < |links| && q < |links[p]|
  {
    links[p := links[p][q := Link.Receive(links[p][q], f)]]
  }

  ghost predicate BroadcastStep(cfg: Config, s: State, s': State, p: nat)
    requires Shape(cfg, s) && Shape(cfg, s')
  {
    && p < cfg.n && p !in s.crashed
    && var b := NextBody(cfg, p, s.procs[p]);
    && s'.procs == s.procs[p := OnBroadcast(cfg, p, s.procs[p])]
    && Fanout(cfg, s.links, s'.links, p, b)
    && s'.history == s.history + [b]
    && s'.crashed == s.crashed
  }

  /** A frame from `p` arrives at `q`: a first copy is handed up, any copy is acknowledged. */
  ghost predicate ArrivalStep(cfg: Config, s: State, s': State, p: nat, q: nat, f: Link.Frame)
    requires Shape(cfg, s) && Shape(cfg, s')
  {
    && p < cfg.n && q < cfg.n && q !in s.crashed
    && f in s.links[p][q].wire && Link.IsSyn(f)
    && (if Link.SeqNum(f) in s.links[p][q].delivered then
          s'.procs == s.procs && s'.links == Arrived(s.links, p, q, f)
        else
          && s'.procs == s.procs[q := OnReceive(cfg, q, s.procs[q], p, f.body)]
          && if Relays(s.procs[q], f.body.Id()) then Fanout(cfg, Arrived(s.links, p, q, f), s'.links, q, f.body)
             else s'.links == Arrived(s.links, p, q, f))
    && s'.history == s.history
    && s'.crashed == s.crashed
  }

  /** An acknowledgement arrives at `p`, or the worker of `p` towards `q` acts. */
  ghost predicate LinkStep(cfg: Config, s: State, s': State, p: nat, q: nat)
    requires Shape(cfg, s) && Shape(cfg, s')
  {
    && p < cfg.n && q < cfg.n && p !in s.crashed
    && Link.IsInternal(s.links[p][q], s'.links[p][q])
    && s' == s.(links := s.links[p := s.links[p][q := s'.links[p][q]]])
  }

  ghost predicate CrashStep(s: State, s': State, p: nat) {
    p < |s.procs| && s' == s.(crashed := s.crashed + {p})
  }

  /** Everything but a broadcast. */
  ghost predicate Reaction(cfg: Config, s: State, s': State)
    requires Shape(cfg, s) && Shape(cfg, s')
  {
    || (exists p, q, f :: ArrivalStep(cfg, s, s', p, q, f))
    || (exists p, q :: LinkStep(cfg, s, s', p, q))
    || (exists p :: CrashStep(s, s', p))
  }

  ghost predicate Next(cfg: Config, s: State, s': State) {
    Shape(cfg, s) && Shape(cfg, s') && ((exists p :: BroadcastStep(cfg, s, s', p)) || Reaction(cfg, s, s'))
  }

  ghost predicate StepAt(cfg: Config, run: seq<State>, i: nat)
    requires 0 < i < |run|
  {
    Next(cfg, run[i - 1], run[i])
  }

  ghost predicate IsRun(cfg: Config, run: seq<State>) {
    && run != []
    && (forall i :: 0 <= i < |run| ==> Shape(cfg, run[i]))
    && forall i :: 0 < i < |run| ==> StepAt(cfg, run, i)
  }

  ghost predicate Execution(cfg: Config, run: seq<State>) {
    IsRun(cfg, run) && Start(cfg, run[0])
  }

  ghost predicate Reachable(cfg: Config, s: State)
    ensures Reachable(cfg, s) ==> Shape(cfg, s)
  {
    exists run :: Execution(cfg, run) && run[|run| - 1] == s
  }

  /** No worker of a survivor has a message for a survivor queued or scheduled. */
  ghost predicate SurvivorsIdle(cfg: Config, s: State)
    requires Shape(cfg, s)
  {
    forall p, q :: 0 <= p < cfg.n && 0 <= q < cfg.n && p !in s.crashed && q !in s.crashed ==>
      Link.Idle(s.links[p][q].sender)
  }

  // ------------------------------------------------------------------------------------------
  // Refinement
  // ------------------------------------------------------------------------------------------

  function Hide(l: Link.State): System.Channel {
    System.Channel(l.issued, l.delivered)
  }

  ghost function HideAll(cfg: Config, links: seq<seq<Link.State>>): seq<seq<System.Channel>>
    requires |links| == cfg.n && forall p :: 0 <= p < cfg.n ==> |links[p]| == cfg.n
  {
    seq(cfg.n, p requires 0 <= p < cfg.n => seq(cfg.n, q requires 0 <= q < cfg.n => Hide(links[p][q])))
  }

  /** The state as the upper layers see it. */
  ghost function Abs(cfg: Config, s: State): System.State
    requires Shape(cfg, s)
  {
    System.State(s.procs, HideAll(cfg, s.links), s.history, s.crashed)
  }

  ghost predicate LinksInv(cfg: Config, links: seq<seq<Link.State>>)
    requires |links| == cfg.n && forall p :: 0 <= p < cfg.n ==> |links[p]| == cfg.n
  {
    forall p, q :: 0 <= p < cfg.n && 0 <= q < cfg.n ==> Link.Inv(links[p][q])
  }

  lemma StartRefines(cfg: Config, s: State)
    requires Start(cfg, s)
    ensures System.Start(cfg, Abs(cfg, s)) && LinksInv(cfg, s.links)
  {
    Link.FreshInv();
  }

  lemma FanoutRefines(cfg: Config, links: seq<seq<Link.State>>, links': seq<seq<Link.State>>, p: nat, b: Body)
    requires |links| == |links'| == cfg.n
    requires forall a :: 0 <= a < cfg.n ==> |links[a]| == |links'[a]| == cfg.n
    requires LinksInv(cfg, links) && Fanout(cfg, links, links', p, b)
    ensures LinksInv(cfg, links')
    ensures System.Fanout(cfg, HideAll(cfg, links), HideAll(cfg, links'), p, b)
  {
    forall a, q | 0 <= a < cfg.n && 0 <= q < cfg.n
      ensures Link.Inv(links'[a][q])
    {
      if a == p && (a, q) in cfg.links {
        Link.SendKeeps(links[a][q], links'[a][q], b);
      }
    }
  }

  lemma ArrivedRefines(cfg: Config, s: State, p: nat, q: nat, f: Link.Frame)
    requires Shape(cfg, s) && LinksInv(cfg, s.links) && p < cfg.n && q < cfg.n
    requires f in s.links[p][q].wire && Link.IsSyn(f)
    ensures var links' := Arrived(s.links, p, q, f);
      && LinksInv(cfg, links')
      && f.number < |s.links[p][q].issued| && s.links[p][q].issued[f.number] == f.body
      && HideAll(cfg, links') == System.HandUp(HideAll(cfg, s.links), p, q, f.number)
  {
    var links' := Arrived(s.links, p, q, f);
    Link.ReceiveKeeps(s.links[p][q], links'[p][q], f);
    Link.AckEncoding(f);
    forall a | 0 <= a < cfg.n
      ensures HideAll(cfg, links')[a] == System.HandUp(HideAll(cfg, s.links), p, q, f.number)[a]
    {}
  }

  lemma DuplicateInvisible(cfg: Config, s: State, p: nat, q: nat, f: Link.Frame)
    requires Shape(cfg, s) && p < cfg.n && q < cfg.n
    requires Link.SeqNum(f) in s.links[p][q].delivered
    ensures HideAll(cfg, Arrived(s.links, p, q, f)) == HideAll(cfg, s.links)
  {
    var l, arrived := s.links[p][q], Arrived(s.links, p, q, f);
    assert l.delivered + {Link.SeqNum(f)} == l.delivered;
    forall a | 0 <= a < cfg.n
      ensures HideAll(cfg, arrived)[a] == HideAll(cfg, s.links)[a]
    {}
  }

  /** A first copy is a reception on the channel. */
  lemma FirstArrivalRefines(cfg: Config, s: State, s': State, p: nat, q: nat, f: Link.Frame)
    requires Shape(cfg, s) && Shape(cfg, s') && LinksInv(cfg, s.links) && ArrivalStep(cfg, s, s', p, q, f)
    requires Link.SeqNum(f) !in s.links[p][q].delivered
    ensures LinksInv(cfg, s'.links)
    ensures System.ReceiveStep(cfg, Abs(cfg, s), Abs(cfg, s'), p, q, f.number)
  {
    ArrivedRefines(cfg, s, p, q, f);
    Link.AckEncoding(f);
    var arrived := Arrived(s.links, p, q, f);
    if Relays(s.procs[q], f.body.Id()) {
      FanoutRefines(cfg, arrived, s'.links, q, f.body);
    }
  }

  lemma ArrivalRefines(cfg: Config, s: State, s': State, p: nat, q: nat, f: Link.Frame)
    requires Shape(cfg, s) && Shape(cfg, s') && LinksInv(cfg, s.links) && ArrivalStep(cfg, s, s', p, q, f)
    ensures LinksInv(cfg, s'.links)
    ensures Link.SeqNum(f) in s.links[p][q].delivered ==> Abs(cfg, s') == Abs(cfg, s)
    ensures System.Next(cfg, Abs(cfg, s), Abs(cfg, s'))
  {
    if Link.SeqNum(f) in s.links[p][q].delivered {
      ArrivedRefines(cfg, s, p, q, f);
      DuplicateInvisible(cfg, s, p, q, f);
    } else {
      FirstArrivalRefines(cfg, s, s', p, q, f);
    }
  }

  lemma SomeArrivalRefines(cfg: Config, s: State, s': State)
    requires Shape(cfg, s) && Shape(cfg, s') && LinksInv(cfg, s.links)
    requires exists p, q, f :: ArrivalStep(cfg, s, s', p, q, f)
    ensures LinksInv(cfg, s'.links)
    ensures System.Next(cfg, Abs(cfg, s), Abs(cfg, s'))
  {
    var p, q, f :| ArrivalStep(cfg, s, s', p, q, f);
    ArrivalRefines(cfg, s, s', p, q, f);
  }

  lemma LinkStepRefines(cfg: Config, s: State, s': State, p: nat, q: nat)
    requires Shape(cfg, s) && Shape(cfg, s') && LinksInv(cfg, s.links) && LinkStep(cfg, s, s', p, q)
    ensures LinksInv(cfg, s'.links)
    ensures Abs(cfg, s') == Abs(cfg, s)
  {
    Link.InternalKeeps(s.links[p][q], s'.links[p][q]);
    forall a | 0 <= a < cfg.n
      ensures HideAll(cfg, s'.links)[a] == HideAll(cfg, s.links)[a]
    {}
  }

  lemma SomeLinkStepRefines(cfg: Config, s: State, s': State)
    requires Shape(cfg, s) && Shape(cfg, s') && LinksInv(cfg, s.links)
    requires exists p, q :: LinkStep(cfg, s, s', p, q)
    ensures LinksInv(cfg, s'.links)
    ensures System.Next(cfg, Abs(cfg, s), Abs(cfg, s'))
  {
    var p, q :| LinkStep(cfg, s, s', p, q);
    LinkStepRefines(cfg, s, s', p, q);
  }

  lemma BroadcastRefines(cfg: Config, s: State, s': State, p: nat)
    requires Shape(cfg, s) && Shape(cfg, s') && LinksInv(cfg, s.links) && BroadcastStep(cfg, s, s', p)
    ensures LinksInv(cfg, s'.links)
    ensures System.Next(cfg, Abs(cfg, s), Abs(cfg, s'))
  {
    FanoutRefines(cfg, s.links, s'.links, p, NextBody(cfg, p, s.procs[p]));
    assert System.BroadcastStep(cfg, Abs(cfg, s), Abs(cfg, s'), p);
  }

  lemma CrashRefines(cfg: Config, s: State, s': State, p: nat)
    requires Shape(cfg, s) && Shape(cfg, s') && LinksInv(cfg, s.links) && CrashStep(s, s', p)
    ensures LinksInv(cfg, s'.links)
    ensures System.Next(cfg, Abs(cfg, s), Abs(cfg, s'))
  {
    assert System.CrashStep(Abs(cfg, s), Abs(cfg, s'), p);
  }

  /** Main result: every step over the lossy network is a step over channels that lose nothing and
      hand up each message once, or is invisible to the processes. */
  lemma NextRefines(cfg: Config, s: State, s': State)
    requires Shape(cfg, s) && LinksInv(cfg, s.links) && Next(cfg, s, s')
    ensures LinksInv(cfg, s'.links)
    ensures System.Next(cfg, Abs(cfg, s), Abs(cfg, s'))
  {
    if p: nat :| BroadcastStep(cfg, s, s', p) {
      BroadcastRefines(cfg, s, s', p);
    } else if exists p, q, f :: ArrivalStep(cfg, s, s', p, q, f) {
      SomeArrivalRefines(cfg, s, s');
    } else if exists p, q :: LinkStep(cfg, s, s', p, q) {
      SomeLinkStepRefines(cfg, s, s');
    } else {
      var p: nat :| CrashStep(s, s', p);
      CrashRefines(cfg, s, s', p);
    }
  }

  lemma ExecutionFront(cfg: Config, run: seq<State>)
    requires Execution(cfg, run) && |run| > 1
    ensures Execution(cfg, run[..|run| - 1]) && Next(cfg, run[|run| - 2], run[|run| - 1])
  {
    var front := run[..|run| - 1];
    forall i | 0 < i < |front|
      ensures StepAt(cfg, front, i)
    {
      assert StepAt(cfg, run, i);
    }
    assert StepAt(cfg, run, |run| - 1);
  }

  lemma {:induction false} ExecutionInv(cfg: Config, run: seq<State>)
    requires Execution(cfg, run)
    ensures var s := run[|run| - 1];
      System.Inv(cfg, Abs(cfg, s)) && Hearing.HearingInv(cfg, Abs(cfg, s)) && LinksInv(cfg, s.links)
  {
    if |run| == 1 {
      StartRefines(cfg, run[0]);
      Hearing.StartHearing(cfg, Abs(cfg, run[0]));
      Invariants.StartInv(cfg, Abs(cfg, run[0]));
    } else {
      var front := run[..|run| - 1];
      ExecutionFront(cfg, run);
      ExecutionInv(cfg, front);
      NextRefines(cfg, run[|run| - 2], run[|run| - 1]);
      Hearing.NextHearing(cfg, Abs(cfg, run[|run| - 2]), Abs(cfg, run[|run| - 1]));
      Invariants.NextKeeps(cfg, Abs(cfg, run[|run| - 2]), Abs(cfg, run[|run| - 1]));
    }
  }

  /** Main result: in every reachable state the layers above the links are in a state that satisfies
      all invariants of the system with perfect channels. */
  lemma ReachableInv(cfg: Config, s: State)
    requires Reachable(cfg, s)
    ensures System.Inv(cfg, Abs(cfg, s)) && Hearing.HearingInv(cfg, Abs(cfg, s)) && LinksInv(cfg, s.links)
  {
    var run :| Execution(cfg, run) && run[|run| - 1] == s;
    ExecutionInv(cfg, run);
  }
}
