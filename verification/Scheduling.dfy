/** The main loop of a process in the program: what the loop does with a frame that is under way, or when
    it broadcasts, is a step of the program, and the other way round. */
module Scheduling {
  import opened Messages
  import opened MainLoop
  import Completion
  import Continuation
  import Dissemination
  import Embedding
  import Link
  import LossySystem
  import Program
  import Ring
  import Stack
  import Transmission

  /** The process stands at `y` in the loop, as the state of the program has it. */
  ghost predicate StandsAt(cfg: Config, x: Program.State, id: nat, y: Progress) {
    && Program.Shape(cfg, x) && id < cfg.n
    && Stack.WellFormed(cfg, id, Ring.Connections(id, cfg.n), y.x)
    && Embedding.PartOf(cfg, x.sys, id, y.x) && y.quota == x.quota[id]
  }

  /** What the queue of arrivals gives has come over the network. */
  ghost predicate UnderWay(cfg: Config, s: LossySystem.State, id: nat, a: Arrival)
    requires LossySystem.Shape(cfg, s) && id < cfg.n
  {
    a.Frame? ==>
      && a.sender < cfg.n && a.sender != id
      && if Link.IsSyn(a.frame) then a.frame in s.links[a.sender][id].wire else a.frame in s.links[id][a.sender].acks
  }

  lemma UnderWayIsHandleable(cfg: Config, s: LossySystem.State, id: nat, a: Arrival)
    requires LossySystem.Shape(cfg, s) && id < cfg.n && UnderWay(cfg, s, id, a)
    ensures Handleable(cfg, a)
  {}

  /** The process can go on: it is up, and has messages left. */
  ghost predicate InLoop(cfg: Config, m: nat, x: Program.State, id: nat, y: Progress) {
    && Program.Valid(cfg, m) && Program.Good(cfg, m, x) && Dissemination.OnRing(cfg)
    && StandsAt(cfg, x, id, y) && id !in x.sys.crashed && y.x.proc.next < m
  }

  // ------------------------------------------------------------------------------------------
  // An iteration is a step
  // ------------------------------------------------------------------------------------------

  lemma DuplicateArrives(cfg: Config, s: LossySystem.State, p: nat, q: nat, f: Link.Frame)
    requires LossySystem.Shape(cfg, s) && p < cfg.n && q < cfg.n && q !in s.crashed
    requires f in s.links[p][q].wire && Link.IsSyn(f) && Link.SeqNum(f) in s.links[p][q].delivered
    ensures var s' := s.(links := LossySystem.Arrived(s.links, p, q, f));
      LossySystem.Shape(cfg, s') && LossySystem.ArrivalStep(cfg, s, s', p, q, f)
  {
    Continuation.ShapeAdmits(cfg, s);
    Continuation.ArrivedKeepsSenders(cfg, s.links, p, q, f);
    var s' := s.(links := LossySystem.Arrived(s.links, p, q, f));
    assert forall a, c :: 0 <= a < cfg.n && 0 <= c < cfg.n ==> Continuation.LinkAdmitted(cfg, s'.links[a][c]);
  }

  /** Any frame on the wire can arrive. */
  lemma FrameArrives(cfg: Config, s: LossySystem.State, p: nat, q: nat, f: Link.Frame)
    returns (s': LossySystem.State)
    requires Transmission.Good(cfg, s) && p < cfg.n && q < cfg.n && q !in s.crashed && |s.history| < Link.TOP_BIT
    requires f in s.links[p][q].wire
    ensures LossySystem.Shape(cfg, s') && LossySystem.ArrivalStep(cfg, s, s', p, q, f)
  {
    GenuineFrame(cfg, s, p, q, f);
    if Link.SeqNum(f) in s.links[p][q].delivered {
      s' := s.(links := LossySystem.Arrived(s.links, p, q, f));
      DuplicateArrives(cfg, s, p, q, f);
    } else {
      s' := Continuation.AfterArrival(cfg, s, p, q, f.number);
      Continuation.ArrivalEnabled(cfg, s, p, q, f.number);
    }
  }

  lemma GenuineFrame(cfg: Config, s: LossySystem.State, p: nat, q: nat, f: Link.Frame)
    requires Transmission.Good(cfg, s) && p < cfg.n && q < cfg.n && f in s.links[p][q].wire
    ensures Link.IsSyn(f) && Link.SeqNum(f) == f.number < |s.links[p][q].issued|
    ensures f == Link.Frame(f.number, s.links[p][q].issued[f.number])
  {
    assert Link.Inv(s.links[p][q]);
    assert Link.Genuine(s.links[p][q], f);
  }

  lemma ReceptionOfMessage(cfg: Config, m: nat, x: Program.State, id: nat, y: Progress, a: Arrival)
    returns (x': Program.State)
    requires InLoop(cfg, m, x, id, y) && y.quota > 0 && a.Frame? && Link.IsSyn(a.frame)
    requires UnderWay(cfg, x.sys, id, a)
    ensures Handleable(cfg, a) && Program.Shape(cfg, x') && Program.Arrives(cfg, m, x, x', a.sender, id, a.frame)
    ensures StandsAt(cfg, x', id, Iterate(cfg, id, Ring.Connections(id, cfg.n), m, y, a))
  {
    Program.NumbersSuffice(cfg, m, x.sys);
    var s' := FrameArrives(cfg, x.sys, a.sender, id, a.frame);
    x' := MessageInLoop(cfg, m, x, id, y, a.sender, a.frame, s');
  }

  lemma MessageInLoop(cfg: Config, m: nat, x: Program.State, id: nat, y: Progress, p: nat, f: Link.Frame,
                      s': LossySystem.State) returns (x': Program.State)
    requires StandsAt(cfg, x, id, y) && Dissemination.OnRing(cfg) && y.x.proc.next < m && y.quota > 0
    requires LossySystem.Shape(cfg, s') && p != id && LossySystem.ArrivalStep(cfg, x.sys, s', p, id, f)
    ensures Stack.Handleable(cfg, p, f) && Program.Shape(cfg, x') && Program.Arrives(cfg, m, x, x', p, id, f)
    ensures StandsAt(cfg, x', id, Iterate(cfg, id, Ring.Connections(id, cfg.n), m, y, Frame(p, f)))
  {
    x' := Program.State(s', x.quota[id := x.quota[id] - 1]);
    Embedding.ArrivalIsPart(cfg, x.sys, s', p, id, f, y.x);
  }

  lemma ReceptionOfAcknowledgement(cfg: Config, m: nat, x: Program.State, id: nat, y: Progress, a: Arrival)
    returns (x': Program.State)
    requires InLoop(cfg, m, x, id, y) && y.quota > 0 && a.Frame? && !Link.IsSyn(a.frame)
    requires UnderWay(cfg, x.sys, id, a)
    ensures Handleable(cfg, a) && Program.Shape(cfg, x') && Program.Acknowledged(cfg, m, x, x', id, a.sender)
    ensures StandsAt(cfg, x', id, Iterate(cfg, id, Ring.Connections(id, cfg.n), m, y, a))
  {
    var s' := AcknowledgementArrives(cfg, x.sys, id, a.sender, a.frame);
    x' := AcknowledgementInLoop(cfg, m, x, id, y, a.sender, a.frame, s');
  }

  lemma AcknowledgementInLoop(cfg: Config, m: nat, x: Program.State, id: nat, y: Progress, q: nat, f: Link.Frame,
                              s': LossySystem.State) returns (x': Program.State)
    requires StandsAt(cfg, x, id, y) && y.x.proc.next < m && y.quota > 0
    requires LossySystem.Shape(cfg, s') && q < cfg.n && q != id && !Link.IsSyn(f)
    requires LossySystem.LinkStep(cfg, x.sys, s', id, q) && Link.IsAcknowledged(x.sys.links[id][q], s'.links[id][q])
    requires s'.links[id][q] == x.sys.links[id][q].(sender := Link.NoteAck(x.sys.links[id][q].sender, f))
    ensures Program.Shape(cfg, x') && Program.Acknowledged(cfg, m, x, x', id, q)
    ensures StandsAt(cfg, x', id, Iterate(cfg, id, Ring.Connections(id, cfg.n), m, y, Frame(q, f)))
  {
    x' := Program.State(s', x.quota[id := x.quota[id] - 1]);
    Embedding.NotingIsPart(cfg, x.sys, s', id, q, y.x, f);
  }

  /** Any acknowledgement that was sent can arrive. */
  lemma AcknowledgementArrives(cfg: Config, s: LossySystem.State, p: nat, q: nat, f: Link.Frame)
    returns (s': LossySystem.State)
    requires LossySystem.Shape(cfg, s) && LossySystem.LinksInv(cfg, s.links)
    requires p < cfg.n && q < cfg.n && p !in s.crashed && f in s.links[p][q].acks && !Link.IsSyn(f)
    ensures LossySystem.Shape(cfg, s') && LossySystem.LinkStep(cfg, s, s', p, q)
    ensures s'.procs == s.procs && Link.IsAcknowledged(s.links[p][q], s'.links[p][q])
    ensures s'.links[p][q] == s.links[p][q].(sender := Link.NoteAck(s.links[p][q].sender, f))
  {
    var l := s.links[p][q];
    var noted := l.(sender := Link.NoteAck(l.sender, f));
    s' := Continuation.SetLink(s, p, q, noted);
    assert Link.IsAcknowledged(l, noted);
    Continuation.InternalIsStep(cfg, s, p, q, noted);
    Continuation.SetLinkElsewhere(cfg, s, p, q, noted);
  }

  lemma BroadcastInLoop(cfg: Config, m: nat, x: Program.State, id: nat, y: Progress, a: Arrival)
    returns (x': Program.State)
    requires InLoop(cfg, m, x, id, y) && (y.quota == 0 || a == Nothing) && Handleable(cfg, a)
    ensures Program.Shape(cfg, x') && Program.Broadcasts(cfg, m, x, x', id)
    ensures StandsAt(cfg, x', id, Iterate(cfg, id, Ring.Connections(id, cfg.n), m, y, a))
  {
    Program.NumbersSuffice(cfg, m, x.sys);
    Continuation.BroadcastEnabled(cfg, x.sys, id);
    x' := Completion.AfterBroadcast(cfg, m, x, id);
    Embedding.BroadcastIsPart(cfg, x.sys, x'.sys, id, y.x);
  }

  /** Main result: one iteration of the loop, with a frame that is under way or without one, is a step of the
      program: the arrival of that frame if there is quota left, and a broadcast otherwise. */
  lemma IterationIsStep(cfg: Config, m: nat, x: Program.State, id: nat, y: Progress, a: Arrival)
    returns (x': Program.State)
    requires InLoop(cfg, m, x, id, y) && UnderWay(cfg, x.sys, id, a)
    ensures Handleable(cfg, a) && Program.Next(cfg, m, x, x')
    ensures StandsAt(cfg, x', id, Iterate(cfg, id, Ring.Connections(id, cfg.n), m, y, a))
    ensures if y.quota == 0 || a == Nothing then Program.Broadcasts(cfg, m, x, x', id)
            else if Link.IsSyn(a.frame) then Program.Arrives(cfg, m, x, x', a.sender, id, a.frame)
            else Program.Acknowledged(cfg, m, x, x', id, a.sender)
  {
    UnderWayIsHandleable(cfg, x.sys, id, a);
    if y.quota == 0 || a == Nothing {
      x' := BroadcastInLoop(cfg, m, x, id, y, a);
    } else if Link.IsSyn(a.frame) {
      x' := ReceptionOfMessage(cfg, m, x, id, y, a);
    } else {
      x' := ReceptionOfAcknowledgement(cfg, m, x, id, y, a);
    }
  }

  // ------------------------------------------------------------------------------------------
  // A step is an iteration
  // ------------------------------------------------------------------------------------------

  /** What one step of the program can be for a process in its loop: nothing, an iteration of the loop, or one
      of a worker beside it. */
  ghost predicate OwnIteration(cfg: Config, m: nat, id: nat, y: Progress, y': Progress)
    requires id < cfg.n && Stack.WellFormed(cfg, id, Ring.Connections(id, cfg.n), y.x)
  {
    || y' == y
    || (exists a :: Handleable(cfg, a) && (a == Nothing || y.quota > 0)
          && y' == Iterate(cfg, id, Ring.Connections(id, cfg.n), m, y, a))
    || (exists q :: 0 <= q < cfg.n && y'.quota == y.quota && Stack.Works(id, y.x, q, y'.x))
  }

  lemma NoSelfAcknowledgement(cfg: Config, s: LossySystem.State, id: nat)
    requires Transmission.Good(cfg, s) && Dissemination.OnRing(cfg) && id < cfg.n
    ensures s.links[id][id].acks == {} && s.links[id][id].wire == {}
  {
    Embedding.NothingIssued(cfg, LossySystem.Abs(cfg, s), id);
    EmptyLink(s.links[id][id]);
  }

  lemma EmptyLink(l: Link.State)
    requires Link.Inv(l) && l.issued == []
    ensures l.acks == {} && l.wire == {}
  {
    if f :| f in l.wire {
      assert false;
    }
  }

  lemma BroadcastSeen(cfg: Config, m: nat, x: Program.State, x': Program.State, p: nat, id: nat, y: Progress)
    returns (y': Progress)
    requires InLoop(cfg, m, x, id, y) && Program.Shape(cfg, x') && Program.Broadcasts(cfg, m, x, x', p)
    ensures StandsAt(cfg, x', id, y') && OwnIteration(cfg, m, id, y, y')
  {
    if p == id {
      Embedding.BroadcastIsPart(cfg, x.sys, x'.sys, id, y.x);
      y' := Iterate(cfg, id, Ring.Connections(id, cfg.n), m, y, Nothing);
    } else {
      Embedding.OtherBroadcast(cfg, x.sys, x'.sys, p, id, y.x);
      y' := y;
    }
  }

  lemma OwnArrival(cfg: Config, m: nat, x: Program.State, x': Program.State, p: nat, f: Link.Frame, id: nat,
                   y: Progress) returns (y': Progress)
    requires Program.Shape(cfg, x') && StandsAt(cfg, x, id, y) && Dissemination.OnRing(cfg) && y.x.proc.next < m
    requires p != id && Program.Arrives(cfg, m, x, x', p, id, f)
    ensures StandsAt(cfg, x', id, y') && OwnIteration(cfg, m, id, y, y')
  {
    Embedding.ArrivalIsPart(cfg, x.sys, x'.sys, p, id, f, y.x);
    y' := Iterate(cfg, id, Ring.Connections(id, cfg.n), m, y, Frame(p, f));
  }

  lemma ArrivalSeen(cfg: Config, m: nat, x: Program.State, x': Program.State, p: nat, q: nat, f: Link.Frame, id: nat,
                    y: Progress) returns (y': Progress)
    requires InLoop(cfg, m, x, id, y) && Program.Shape(cfg, x') && Program.Arrives(cfg, m, x, x', p, q, f)
    ensures StandsAt(cfg, x', id, y') && OwnIteration(cfg, m, id, y, y')
  {
    if q == id {
      NoSelfAcknowledgement(cfg, x.sys, id);
      y' := OwnArrival(cfg, m, x, x', p, f, id, y);
    } else {
      Embedding.OtherArrival(cfg, x.sys, x'.sys, p, q, f, id, y.x);
      y' := y;
    }
  }

  lemma NotFromItself(cfg: Config, s: LossySystem.State, s': LossySystem.State, id: nat, q: nat)
    requires Transmission.Good(cfg, s) && LossySystem.Shape(cfg, s') && Dissemination.OnRing(cfg)
    requires id < cfg.n && q < cfg.n && Link.IsAcknowledged(s.links[id][q], s'.links[id][q])
    ensures q != id
  {
    NoSelfAcknowledgement(cfg, s, id);
  }

  lemma OwnAcknowledgement(cfg: Config, m: nat, x: Program.State, x': Program.State, q: nat, id: nat, y: Progress)
    returns (y': Progress)
    requires Program.Shape(cfg, x') && StandsAt(cfg, x, id, y) && y.x.proc.next < m && q != id
    requires Program.Acknowledged(cfg, m, x, x', id, q)
    ensures StandsAt(cfg, x', id, y') && OwnIteration(cfg, m, id, y, y')
  {
    var f := Embedding.AcknowledgementIsPart(cfg, x.sys, x'.sys, id, q, y.x);
    y' := Iterate(cfg, id, Ring.Connections(id, cfg.n), m, y, Frame(q, f));
  }

  lemma AcknowledgementSeen(cfg: Config, m: nat, x: Program.State, x': Program.State, p: nat, q: nat, id: nat,
                            y: Progress) returns (y': Progress)
    requires InLoop(cfg, m, x, id, y) && Program.Shape(cfg, x') && Program.Acknowledged(cfg, m, x, x', p, q)
    ensures StandsAt(cfg, x', id, y') && OwnIteration(cfg, m, id, y, y')
  {
    if p == id {
      NotFromItself(cfg, x.sys, x'.sys, id, q);
      y' := OwnAcknowledgement(cfg, m, x, x', q, id, y);
    } else {
      Embedding.OtherLink(cfg, x.sys, x'.sys, p, q, id, y.x);
      y' := y;
    }
  }

  lemma WorkSeen(cfg: Config, m: nat, x: Program.State, x': Program.State, p: nat, q: nat, id: nat, y: Progress)
    returns (y': Progress)
    requires InLoop(cfg, m, x, id, y) && Program.Shape(cfg, x') && Program.Works(cfg, x, x', p, q)
    ensures StandsAt(cfg, x', id, y') && OwnIteration(cfg, m, id, y, y')
  {
    if p == id && q != id {
      var own := Embedding.WorkIsPart(cfg, x.sys, x'.sys, id, q, y.x);
      Embedding.WorkKeepsShape(cfg, id, y.x, q, own);
      y' := Progress(own, y.quota);
    } else {
      Embedding.OtherLink(cfg, x.sys, x'.sys, p, q, id, y.x);
      y' := y;
    }
  }

  /** Main result: the other way round, every step of the program is, for each process that still has messages
      to broadcast, an iteration of its loop or of one of its workers, or nothing to it. */
  lemma StepIsIteration(cfg: Config, m: nat, x: Program.State, x': Program.State, id: nat, y: Progress)
    returns (y': Progress)
    requires InLoop(cfg, m, x, id, y) && Program.Next(cfg, m, x, x')
    ensures StandsAt(cfg, x', id, y') && OwnIteration(cfg, m, id, y, y')
  {
    if p: nat :| Program.Broadcasts(cfg, m, x, x', p) {
      y' := BroadcastSeen(cfg, m, x, x', p, id, y);
    } else if p: nat, q: nat, f :| Program.Arrives(cfg, m, x, x', p, q, f) {
      y' := ArrivalSeen(cfg, m, x, x', p, q, f, id, y);
    } else if p: nat, q: nat :| Program.Acknowledged(cfg, m, x, x', p, q) {
      y' := AcknowledgementSeen(cfg, m, x, x', p, q, id, y);
    } else if p: nat, q: nat :| Program.Works(cfg, x, x', p, q) {
      y' := WorkSeen(cfg, m, x, x', p, q, id, y);
    } else {
      Embedding.Untouched(cfg, x.sys, x'.sys, id, y.x);
      y' := y;
    }
  }

  // ------------------------------------------------------------------------------------------
  // The whole loop
  // ------------------------------------------------------------------------------------------

  /** What is under way stays under way: it may arrive again. */
  lemma StillUnderWay(cfg: Config, s: LossySystem.State, s': LossySystem.State, id: nat, a: Arrival)
    requires LossySystem.Next(cfg, s, s') && id < cfg.n && UnderWay(cfg, s, id, a)
    ensures UnderWay(cfg, s', id, a)
  {
    if a.Frame? {
      TrafficGrows(cfg, s, s', a.sender, id);
      TrafficGrows(cfg, s, s', id, a.sender);
    }
  }

  lemma FanoutGrows(cfg: Config, links: seq<seq<Link.State>>, links': seq<seq<Link.State>>, p: nat, b: Body, a: nat,
                    c: nat)
    requires |links| == |links'| == cfg.n
    requires forall a :: 0 <= a < cfg.n ==> |links[a]| == |links'[a]| == cfg.n
    requires LossySystem.Fanout(cfg, links, links', p, b) && a < cfg.n && c < cfg.n
    ensures links[a][c].wire <= links'[a][c].wire && links[a][c].acks <= links'[a][c].acks
  {}

  lemma TrafficGrows(cfg: Config, s: LossySystem.State, s': LossySystem.State, a: nat, c: nat)
    requires LossySystem.Next(cfg, s, s') && a < cfg.n && c < cfg.n
    ensures s.links[a][c].wire <= s'.links[a][c].wire && s.links[a][c].acks <= s'.links[a][c].acks
  {
    if p: nat :| LossySystem.BroadcastStep(cfg, s, s', p) {
      FanoutGrows(cfg, s.links, s'.links, p, s'.history[|s.history|], a, c);
    } else if p: nat, q: nat, f :| LossySystem.ArrivalStep(cfg, s, s', p, q, f) {
      ArrivalGrows(cfg, s, s', p, q, f, a, c);
    } else if p: nat, q: nat :| LossySystem.LinkStep(cfg, s, s', p, q) {
      assert (a, c) != (p, q) ==> s'.links[a][c] == s.links[a][c];
    }
  }

  lemma ArrivalGrows(cfg: Config, s: LossySystem.State, s': LossySystem.State, p: nat, q: nat, f: Link.Frame, a: nat,
                     c: nat)
    requires LossySystem.Shape(cfg, s) && LossySystem.Shape(cfg, s') && a < cfg.n && c < cfg.n
    requires LossySystem.ArrivalStep(cfg, s, s', p, q, f)
    ensures s.links[a][c].wire <= s'.links[a][c].wire && s.links[a][c].acks <= s'.links[a][c].acks
  {
    var arrived: seq<seq<Link.State>> := LossySystem.Arrived(s.links, p, q, f);
    assert s.links[a][c].wire <= arrived[a][c].wire && s.links[a][c].acks <= arrived[a][c].acks;
    if s'.links != arrived {
      FanoutGrows(cfg, arrived, s'.links, q, f.body, a, c);
    }
  }

  ghost predicate AllUnderWay(cfg: Config, s: LossySystem.State, id: nat, arrivals: nat -> Arrival)
    requires LossySystem.Shape(cfg, s) && id < cfg.n
    ensures AllUnderWay(cfg, s, id, arrivals) ==> forall j :: Handleable(cfg, arrivals(j))
  {
    forall j :: UnderWay(cfg, s, id, arrivals(j))
  }

  lemma AllStillUnderWay(cfg: Config, s: LossySystem.State, s': LossySystem.State, id: nat, arrivals: nat -> Arrival)
    requires LossySystem.Next(cfg, s, s') && id < cfg.n && AllUnderWay(cfg, s, id, arrivals)
    ensures AllUnderWay(cfg, s', id, arrivals)
  {
    forall j
      ensures UnderWay(cfg, s', id, arrivals(j))
    {
      StillUnderWay(cfg, s, s', id, arrivals(j));
    }
  }

  /** The process is somewhere in its loop, or at its end, and the frames it will be given are under way. */
  ghost predicate Running(cfg: Config, m: nat, x: Program.State, id: nat, y: Progress, arrivals: nat -> Arrival)
    ensures Running(cfg, m, x, id, y, arrivals) ==> StandsAt(cfg, x, id, y) && forall j :: Handleable(cfg, arrivals(j))
  {
    && Program.Valid(cfg, m) && Program.Good(cfg, m, x) && Dissemination.OnRing(cfg)
    && StandsAt(cfg, x, id, y) && id !in x.sys.crashed && AllUnderWay(cfg, x.sys, id, arrivals)
  }

  lemma RunsOn(cfg: Config, m: nat, x: Program.State, id: nat, y: Progress, arrivals: nat -> Arrival, i: nat)
    returns (x': Program.State, y': Progress)
    requires Running(cfg, m, x, id, y, arrivals) && y.x.proc.next < m
    ensures Running(cfg, m, x', id, y', arrivals) && Program.Leads(cfg, m, x, x')
    ensures y' == Iterate(cfg, id, Ring.Connections(id, cfg.n), m, y, arrivals(i))
  {
    x' := IterationIsStep(cfg, m, x, id, y, arrivals(i));
    y' := Iterate(cfg, id, Ring.Connections(id, cfg.n), m, y, arrivals(i));
    Program.NextGood(cfg, m, x, x');
    Program.NextIsStep(cfg, m, x, x');
    Program.StepLeads(cfg, m, x, x');
    AllStillUnderWay(cfg, x.sys, x'.sys, id, arrivals);
  }

  /** Main result: whatever frames under way the loop is given, what it ends with is where a run of the program
      takes the process. */
  lemma {:induction false} LoopIsRun(cfg: Config, m: nat, x: Program.State, id: nat, y: Progress,
                                     arrivals: nat -> Arrival, i: nat) returns (x': Program.State)
    requires Running(cfg, m, x, id, y, arrivals)
    ensures Program.Leads(cfg, m, x, x')
    ensures Embedding.PartOf(cfg, x'.sys, id, Loop(cfg, id, Ring.Connections(id, cfg.n), m, arrivals, i, y).x)
    decreases if y.x.proc.next < m then m - y.x.proc.next else 0, y.quota
  {
    if y.x.proc.next >= m {
      x' := x;
      Program.LeadsToItself(cfg, m, x);
    } else {
      var mid, next := RunsOn(cfg, m, x, id, y, arrivals, i);
      x' := LoopIsRun(cfg, m, mid, id, next, arrivals, i + 1);
      Program.LeadsOn(cfg, m, x, mid, x');
    }
  }
}
