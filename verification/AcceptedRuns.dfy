/** The logs that the protocol writes are accepted by the checker of run logs. */
module AcceptedRuns {
  import opened Messages
  import opened System
  import Causality
  import Validator

  /** How the application log shows an event: originators and numbers from 1. */
  function Render(e: Event): Validator.Line {
    match e
    case Broadcast(b) => Validator.B(b.seqNum + 1)
    case Deliver(b) => Validator.D(b.originator + 1, b.seqNum + 1)
  }

  function RenderLog(log: seq<Event>): seq<Validator.Line> {
    seq(|log|, i requires 0 <= i < |log| => Render(log[i]))
  }

  function RenderLogs(procs: seq<seq<Event>>): seq<seq<Validator.Line>> {
    seq(|procs|, p requires 0 <= p < |procs| => RenderLog(procs[p]))
  }

  ghost function Logs(s: State): seq<seq<Event>> {
    seq(|s.procs|, p requires 0 <= p < |s.procs| => s.procs[p].lcb.log)
  }

  function DependencyLine(cfg: Config, pid: int): seq<int>
    requires cfg.Valid() && 1 <= pid <= cfg.n
  {
    seq(|cfg.deps[pid - 1]|, i requires 0 <= i < |cfg.deps[pid - 1]| => cfg.deps[pid - 1][i] + 1)
  }

  /** The dependency lines as the checker is given them. */
  function RenderDependencies(cfg: Config): map<int, seq<int>>
    requires cfg.Valid()
  {
    map pid: int | 1 <= pid <= cfg.n :: DependencyLine(cfg, pid)
  }

  lemma {:induction false} RenderCounts(log: seq<Event>, o: nat)
    ensures Validator.CountB(RenderLog(log)) == Broadcasts(log)
    ensures Validator.CountD(RenderLog(log), o + 1) == Delivered(log, o)
  {
    if log != [] {
      var front := log[..|log| - 1];
      RenderCounts(front, o);
      assert RenderLog(log)[..|log| - 1] == RenderLog(front);
    }
  }

  lemma RenderContinues(log: seq<Event>, j: nat)
    requires j < |log|
    requires log[j].Broadcast? ==> log[j].body.seqNum == Broadcasts(log[..j])
    requires log[j].Deliver? ==> log[j].body.seqNum == Delivered(log[..j], log[j].body.originator)
    ensures Validator.Continues(RenderLog(log)[..j], RenderLog(log)[j])
  {
    assert RenderLog(log)[..j] == RenderLog(log[..j]);
    RenderCounts(log[..j], log[j].body.originator);
  }

  lemma RenderedLogContiguous(cfg: Config, s: State, p: nat)
    requires Inv(cfg, s) && p < cfg.n
    ensures Validator.Contiguous(RenderLog(s.procs[p].lcb.log))
  {
    var log := s.procs[p].lcb.log;
    forall j | 0 <= j < |RenderLog(log)|
      ensures Validator.Continues(RenderLog(log)[..j], RenderLog(log)[j])
    {
      Causality.EventInSequence(cfg, s, p, j);
      RenderContinues(log, j);
    }
  }

  lemma RenderedDependency(cfg: Config, pid: int, d: nat)
    requires cfg.Valid() && 1 <= pid <= cfg.n
    ensures d + 1 in Validator.DependenciesOf(RenderDependencies(cfg), pid) <==> d in cfg.deps[pid - 1]
  {
    var given, rendered := cfg.deps[pid - 1], Validator.DependenciesOf(RenderDependencies(cfg), pid);
    assert |rendered| == |given| && forall i :: 0 <= i < |given| ==> rendered[i] == given[i] + 1;
    if d in given {
      var i :| 0 <= i < |given| && given[i] == d;
      assert rendered[i] == d + 1;
    }
    if d + 1 in rendered {
      var i :| 0 <= i < |rendered| && rendered[i] == d + 1;
      assert given[i] == d;
    }
  }

  lemma DependencyRendered(cfg: Config, s: State, m2: Body, a: nat, b: nat, p: nat, j: nat)
    requires Inv(cfg, s) && p < cfg.n && m2 in s.history
    requires j < |s.procs[p].lcb.log| && s.procs[p].lcb.log[j] == Event.Deliver(m2)
    requires a < b < |s.procs[m2.originator].lcb.log| && s.procs[m2.originator].lcb.log[b] == Event.Broadcast(m2)
    requires s.procs[m2.originator].lcb.log[a].Deliver?
    requires s.procs[m2.originator].lcb.log[a].body.originator in cfg.deps[m2.originator]
    ensures Render(s.procs[m2.originator].lcb.log[a]) in RenderLog(s.procs[p].lcb.log)[..j]
  {
    Causality.EventInSequence(cfg, s, m2.originator, a);
    var m1 := s.procs[m2.originator].lcb.log[a].body;
    var i := Causality.PrecedesDelivered(cfg, s, m1, m2, p, j);
    assert RenderLog(s.procs[p].lcb.log)[..j][i] == Render(s.procs[p].lcb.log[i]);
  }

  /** The delivery of `m2` at `p` comes after every dependency that its originator had delivered. */
  lemma DependenciesRendered(cfg: Config, s: State, m2: Body, b: nat, p: nat, j: nat)
    requires Inv(cfg, s) && p < cfg.n && m2 in s.history
    requires j < |s.procs[p].lcb.log| && s.procs[p].lcb.log[j] == Event.Deliver(m2)
    requires b < |s.procs[m2.originator].lcb.log| && s.procs[m2.originator].lcb.log[b] == Event.Broadcast(m2)
    ensures Validator.DependenciesIn(RenderLog(s.procs[m2.originator].lcb.log), b,
                                     Validator.DependenciesOf(RenderDependencies(cfg), m2.originator + 1),
                                     RenderLog(s.procs[p].lcb.log)[..j])
  {
    var source, log := s.procs[m2.originator].lcb.log, s.procs[p].lcb.log;
    var deps := Validator.DependenciesOf(RenderDependencies(cfg), m2.originator + 1);
    forall a | 0 <= a < b && RenderLog(source)[a].D? && RenderLog(source)[a].sender in deps
      ensures RenderLog(source)[a] in RenderLog(log)[..j]
    {
      RenderedDependency(cfg, m2.originator + 1, source[a].body.originator);
      DependencyRendered(cfg, s, m2, a, b, p, j);
    }
  }

  lemma LineRespected(cfg: Config, s: State, pid: int, other: nat, j: nat)
    requires Inv(cfg, s) && 1 <= pid <= cfg.n && other < cfg.n && j < |s.procs[other].lcb.log|
    ensures Validator.PrecededByDependencies(RenderDependencies(cfg), RenderLogs(Logs(s)), pid,
                                             RenderLog(s.procs[other].lcb.log)[..j],
                                             RenderLog(s.procs[other].lcb.log)[j])
  {
    var line := RenderLog(s.procs[other].lcb.log)[j];
    if line.D? && line.sender == pid {
      var m2 := s.procs[other].lcb.log[j].body;
      Causality.EventInSequence(cfg, s, other, j);
      Causality.BroadcastWasLogged(cfg, s, m2);
      var source := s.procs[m2.originator].lcb.log;
      var b :| 0 <= b < |source| && source[b] == Event.Broadcast(m2);
      DependenciesRendered(cfg, s, m2, b, other, j);
      assert Validator.File(RenderLogs(Logs(s)), pid) == RenderLog(source);
      assert RenderLog(source)[b] == Validator.B(line.msg);
    }
  }

  /** Main result: whatever state the system is in, its logs pass the check. */
  lemma LogsAccepted(cfg: Config, s: State)
    requires Inv(cfg, s)
    ensures Validator.LogsRespectDependencies(RenderDependencies(cfg), RenderLogs(Logs(s)))
  {
    var dependencies, logs := RenderDependencies(cfg), RenderLogs(Logs(s));
    forall pid | 1 <= pid <= |logs|
      ensures Validator.Respected(dependencies, logs, pid)
    {
      RenderedLogContiguous(cfg, s, pid - 1);
      forall other, j | 1 <= other <= |logs| && other != pid && 0 <= j < |Validator.File(logs, other)|
        ensures Validator.PrecededByDependencies(dependencies, logs, pid, Validator.File(logs, other)[..j],
                                                 Validator.File(logs, other)[j])
      {
        LineRespected(cfg, s, pid, other - 1, j);
      }
    }
  }
}
