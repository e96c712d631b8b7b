/** Every reachable state of the program can be continued until all messages are broadcast and nothing is
    under way between the survivors. */
module Completion {
  import opened Messages
  import opened LossySystem
  import Continuation
  import FiniteSets
  import Invariants
  import Program
  import Protocol
  import Ring
  import Transmission

  /** The same crashes and hand-ups, more messages, and nothing forgotten. */
  ghost predicate Longer(cfg: Config, s: State, s': State)
    requires Shape(cfg, s) && Shape(cfg, s')
  {
    && s.history <= s'.history && s'.crashed == s.crashed
    && (forall p, q :: 0 <= p < cfg.n && 0 <= q < cfg.n ==> s'.links[p][q].delivered == s.links[p][q].delivered)
    && forall p :: 0 <= p < cfg.n ==>
         s.procs[p].urb.pending <= s'.procs[p].urb.pending && s.procs[p].urb.delivered <= s'.procs[p].urb.delivered
  }

  lemma LongerStill(cfg: Config, s: State, mid: State, s': State)
    requires Shape(cfg, s) && Shape(cfg, mid) && Shape(cfg, s') && Longer(cfg, s, mid) && Longer(cfg, mid, s')
    ensures Longer(cfg, s, s')
  {}

  lemma BroadcastIsLonger(cfg: Config, s: State, p: nat)
    requires Transmission.Good(cfg, s) && p < cfg.n && Shape(cfg, Continuation.AfterBroadcast(cfg, s, p))
    ensures Longer(cfg, s, Continuation.AfterBroadcast(cfg, s, p))
  {
    Invariants.BroadcastDeliversNothing(cfg, Abs(cfg, s), p);
    var s' := Continuation.AfterBroadcast(cfg, s, p);
    forall a, c | 0 <= a < cfg.n && 0 <= c < cfg.n
      ensures s'.links[a][c].delivered == s.links[a][c].delivered
    {
      Continuation.FanoutHandsUpNothing(cfg, s.links, p, Protocol.NextBody(cfg, p, s.procs[p]), a, c);
    }
  }

  ghost function AfterBroadcast(cfg: Config, m: nat, x: Program.State, p: nat): Program.State
    requires Program.Shape(cfg, x) && p < cfg.n
  {
    Program.State(Continuation.AfterBroadcast(cfg, x.sys, p), x.quota[p := m])
  }

  /** A process that is up and has messages left can broadcast the next one. */
  lemma BroadcastPossible(cfg: Config, m: nat, x: Program.State, p: nat)
    requires Program.Valid(cfg, m) && Program.Good(cfg, m, x)
    requires p < cfg.n && p !in x.sys.crashed && x.sys.procs[p].next < m
    ensures var x' := AfterBroadcast(cfg, m, x, p);
      Program.Good(cfg, m, x') && Program.Leads(cfg, m, x, x') && Longer(cfg, x.sys, x'.sys)
  {
    var x' := AfterBroadcast(cfg, m, x, p);
    Program.NumbersSuffice(cfg, m, x.sys);
    Continuation.BroadcastEnabled(cfg, x.sys, p);
    assert Program.Broadcasts(cfg, m, x, x', p);
    Program.NextGood(cfg, m, x, x');
    Program.StepLeads(cfg, m, x, x');
    BroadcastIsLonger(cfg, x.sys, p);
  }

  /** What the processes that are up still have to broadcast. */
  ghost function ToSend(cfg: Config, m: nat, s: State): set<(nat, nat)>
    requires Shape(cfg, s)
  {
    set p, t |
      p in Ring.Everyone(cfg.n) && t in FiniteSets.Range(0, m) && p !in s.crashed && t >= s.procs[p].next
      :: (p, t)
  }

  lemma LessToSend(cfg: Config, m: nat, s: State, p: nat)
    requires Shape(cfg, s) && p < cfg.n && p !in s.crashed && s.procs[p].next < m
    requires Shape(cfg, Continuation.AfterBroadcast(cfg, s, p))
    ensures ToSend(cfg, m, Continuation.AfterBroadcast(cfg, s, p)) < ToSend(cfg, m, s)
  {
    var s' := Continuation.AfterBroadcast(cfg, s, p);
    assert (p, s.procs[p].next) in ToSend(cfg, m, s) && (p, s.procs[p].next) !in ToSend(cfg, m, s');
  }

  /** The processes that are up can broadcast all their messages before anything else happens. */
  lemma {:induction false} SendRest(cfg: Config, m: nat, x: Program.State) returns (x': Program.State)
    requires Program.Valid(cfg, m) && Program.Good(cfg, m, x)
    ensures Program.Good(cfg, m, x') && Program.Leads(cfg, m, x, x') && Longer(cfg, x.sys, x'.sys)
    ensures Continuation.AllSent(cfg, m, x'.sys)
    decreases ToSend(cfg, m, x.sys)
  {
    if p: nat :| p < cfg.n && p !in x.sys.crashed && x.sys.procs[p].next < m {
      var next := AfterBroadcast(cfg, m, x, p);
      BroadcastPossible(cfg, m, x, p);
      LessToSend(cfg, m, x.sys, p);
      x' := SendRest(cfg, m, next);
      Program.LeadsOn(cfg, m, x, next, x');
      LongerStill(cfg, x.sys, next.sys, x'.sys);
    } else {
      x' := x;
      Program.LeadsToItself(cfg, m, x);
    }
  }

  /** Nothing happened to the messages that were broadcast, and nobody forgot one. */
  ghost predicate Continues(cfg: Config, s: State, s': State)
    requires Shape(cfg, s) && Shape(cfg, s')
  {
    && s.history <= s'.history && s'.crashed == s.crashed
    && forall p :: 0 <= p < cfg.n ==>
         s.procs[p].urb.pending <= s'.procs[p].urb.pending && s.procs[p].urb.delivered <= s'.procs[p].urb.delivered
  }

  lemma ThenLater(cfg: Config, s: State, mid: State, s': State)
    requires Shape(cfg, s) && Shape(cfg, mid) && Shape(cfg, s')
    requires Longer(cfg, s, mid) && Continuation.Later(cfg, mid, s')
    ensures Continues(cfg, s, s')
  {}

  /** From a state in which everything is sent, on to one in which the survivors rest. */
  lemma ThenRest(cfg: Config, m: nat, x: Program.State, sent: Program.State) returns (x': Program.State)
    requires Program.Valid(cfg, m) && Program.Good(cfg, m, sent) && Program.Leads(cfg, m, x, sent)
    requires Continuation.AllSent(cfg, m, sent.sys)
    ensures Program.Leads(cfg, m, x, x') && Continuation.Later(cfg, sent.sys, x'.sys)
    ensures SurvivorsIdle(cfg, x'.sys) && Continuation.AllSent(cfg, m, x'.sys)
  {
    var origin := Continuation.Origin(m, x, sent.quota);
    assert sent == Program.State(sent.sys, sent.quota);
    Program.NumbersSuffice(cfg, m, sent.sys);
    var s' := Continuation.Rest(cfg, origin, sent.sys);
    x' := Program.State(s', sent.quota);
  }

  /** Main result: every reachable state of the program can be continued, without another crash, to one in
      which every survivor has broadcast all its messages and the links between survivors are idle. */
  lemma IdleIsPossible(cfg: Config, m: nat, x: Program.State) returns (x': Program.State)
    requires Program.Valid(cfg, m) && Program.Reachable(cfg, m, x)
    ensures Program.Leads(cfg, m, x, x') && Program.Reachable(cfg, m, x') && Continues(cfg, x.sys, x'.sys)
    ensures Continuation.AllSent(cfg, m, x'.sys) && SurvivorsIdle(cfg, x'.sys)
  {
    Program.ReachableGood(cfg, m, x);
    var sent := SendRest(cfg, m, x);
    x' := ThenRest(cfg, m, x, sent);
    ThenLater(cfg, x.sys, sent.sys, x'.sys);
    Program.ReachableOn(cfg, m, x, x');
  }
}
