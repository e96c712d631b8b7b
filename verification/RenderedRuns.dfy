/** What the checker of run logs decides about any logs, in terms of the events behind the lines. */
module RenderedRuns {
  import opened Messages
  import opened AcceptedRuns
  import Validator

  /** The event continues the numbering of the events before it. */
  ghost predicate ContinuesAt(log: seq<Event>, j: nat)
    requires j < |log|
  {
    match log[j]
    case Broadcast(b) => b.seqNum == Broadcasts(log[..j])
    case Deliver(b) => b.seqNum == Delivered(log[..j], b.originator)
  }

  ghost predicate Numbered(log: seq<Event>) {
    forall j :: 0 <= j < |log| ==> ContinuesAt(log, j)
  }

  /** What `p` had delivered from its dependencies before its event `i`, `q` had delivered before its event `j`. */
  ghost predicate DeliveredBefore(cfg: Config, logs: seq<seq<Event>>, p: nat, i: nat, q: nat, j: nat)
    requires cfg.Valid() && |logs| == cfg.n && p < cfg.n && q < cfg.n && i <= |logs[p]| && j <= |logs[q]|
  {
    forall a :: 0 <= a < i && logs[p][a].Deliver? && logs[p][a].body.originator in cfg.deps[p] ==>
      DeliversKey(logs[q][..j], logs[p][a].body.Id())
  }

  ghost predicate DeliversKey(log: seq<Event>, k: Key) {
    exists e :: 0 <= e < |log| && log[e].Deliver? && log[e].body.Id() == k
  }

  /** If event `j` of `q` delivers a message of `p`, then `p` broadcast that number, and `q` had delivered before
      what `p` had delivered before. */
  ghost predicate InTime(cfg: Config, logs: seq<seq<Event>>, p: nat, q: nat, j: nat)
    requires cfg.Valid() && |logs| == cfg.n && p < cfg.n && q < cfg.n && j < |logs[q]|
  {
    logs[q][j].Deliver? && logs[q][j].body.originator == p ==>
      exists i :: 0 <= i < |logs[p]| && logs[p][i].Broadcast? && logs[p][i].body.seqNum == logs[q][j].body.seqNum
        && DeliveredBefore(cfg, logs, p, i, q, j)
  }

  ghost predicate RespectedOf(cfg: Config, logs: seq<seq<Event>>, p: nat)
    requires cfg.Valid() && |logs| == cfg.n && p < cfg.n
  {
    && Numbered(logs[p])
    && forall q, j :: 0 <= q < cfg.n && q != p && 0 <= j < |logs[q]| ==> InTime(cfg, logs, p, q, j)
  }

  ghost predicate Respectful(cfg: Config, logs: seq<seq<Event>>)
    requires cfg.Valid() && |logs| == cfg.n
  {
    forall p :: 0 <= p < cfg.n ==> RespectedOf(cfg, logs, p)
  }

  lemma NumberedIff(log: seq<Event>)
    ensures Validator.Contiguous(RenderLog(log)) <==> Numbered(log)
  {
    forall j | 0 <= j < |log|
      ensures Validator.Continues(RenderLog(log)[..j], RenderLog(log)[j]) <==> ContinuesAt(log, j)
    {
      assert RenderLog(log)[..j] == RenderLog(log[..j]);
      RenderCounts(log[..j], log[j].body.originator);
    }
  }

  lemma DeliversKeyIff(log: seq<Event>, e: Event)
    requires e.Deliver?
    ensures Render(e) in RenderLog(log) <==> DeliversKey(log, e.body.Id())
  {
    if DeliversKey(log, e.body.Id()) {
      var i :| 0 <= i < |log| && log[i].Deliver? && log[i].body.Id() == e.body.Id();
      assert RenderLog(log)[i] == Render(e);
    }
    if Render(e) in RenderLog(log) {
      var i :| 0 <= i < |log| && RenderLog(log)[i] == Render(e);
      assert log[i].Deliver? && log[i].body.Id() == e.body.Id();
    }
  }

  lemma DeliveredBeforeIff(cfg: Config, logs: seq<seq<Event>>, p: nat, i: nat, q: nat, j: nat)
    requires cfg.Valid() && |logs| == cfg.n && p < cfg.n && q < cfg.n && i <= |logs[p]| && j <= |logs[q]|
    ensures Validator.DependenciesIn(RenderLog(logs[p]), i,
                                     Validator.DependenciesOf(RenderDependencies(cfg), p + 1), RenderLog(logs[q])[..j])
       <==> DeliveredBefore(cfg, logs, p, i, q, j)
  {
    var deps := Validator.DependenciesOf(RenderDependencies(cfg), p + 1);
    assert RenderLog(logs[q])[..j] == RenderLog(logs[q][..j]);
    forall a | 0 <= a < i && logs[p][a].Deliver?
      ensures RenderLog(logs[p])[a].sender in deps <==> logs[p][a].body.originator in cfg.deps[p]
      ensures RenderLog(logs[p])[a] in RenderLog(logs[q])[..j]
         <==> DeliversKey(logs[q][..j], logs[p][a].body.Id())
    {
      RenderedDependency(cfg, p + 1, logs[p][a].body.originator);
      DeliversKeyIff(logs[q][..j], logs[p][a]);
    }
    assert forall a :: 0 <= a < i ==> (RenderLog(logs[p])[a].D? <==> logs[p][a].Deliver?);
  }

  lemma InTimeIff(cfg: Config, logs: seq<seq<Event>>, p: nat, q: nat, j: nat)
    requires cfg.Valid() && |logs| == cfg.n && p < cfg.n && q < cfg.n && j < |logs[q]|
    ensures Validator.PrecededByDependencies(RenderDependencies(cfg), RenderLogs(logs), p + 1,
                                             RenderLog(logs[q])[..j], RenderLog(logs[q])[j])
       <==> InTime(cfg, logs, p, q, j)
  {
    assert Validator.File(RenderLogs(logs), p + 1) == RenderLog(logs[p]);
    forall i | 0 <= i < |logs[p]|
      ensures Validator.DependenciesIn(RenderLog(logs[p]), i,
                                       Validator.DependenciesOf(RenderDependencies(cfg), p + 1),
                                       RenderLog(logs[q])[..j])
         <==> DeliveredBefore(cfg, logs, p, i, q, j)
    {
      DeliveredBeforeIff(cfg, logs, p, i, q, j);
    }
    if logs[q][j].Deliver? {
      forall i | 0 <= i < |logs[p]|
        ensures RenderLog(logs[p])[i] == Validator.B(logs[q][j].body.seqNum + 1)
           <==> logs[p][i].Broadcast? && logs[p][i].body.seqNum == logs[q][j].body.seqNum
      {}
    }
  }

  lemma RespectedIff(cfg: Config, logs: seq<seq<Event>>, p: nat)
    requires cfg.Valid() && |logs| == cfg.n && p < cfg.n
    ensures Validator.Respected(RenderDependencies(cfg), RenderLogs(logs), p + 1) <==> RespectedOf(cfg, logs, p)
  {
    var dependencies, rendered := RenderDependencies(cfg), RenderLogs(logs);
    NumberedIff(logs[p]);
    forall q: nat, j: nat | q < cfg.n && j < |logs[q]|
      ensures Validator.PrecededByDependencies(dependencies, rendered, p + 1, Validator.File(rendered, q + 1)[..j],
                                               Validator.File(rendered, q + 1)[j])
         <==> InTime(cfg, logs, p, q, j)
    {
      InTimeIff(cfg, logs, p, q, j);
    }
    if RespectedOf(cfg, logs, p) {
      forall other, j | 1 <= other <= |rendered| && other != p + 1 && 0 <= j < |Validator.File(rendered, other)|
        ensures Validator.PrecededByDependencies(dependencies, rendered, p + 1, Validator.File(rendered, other)[..j],
                                                 Validator.File(rendered, other)[j])
      {
        assert InTime(cfg, logs, p, other - 1, j);
      }
    }
  }

  /** Main result: whatever logs processes write, the lines respect the dependency lines exactly if the events
      are numbered without gaps and delivered after what their broadcaster had delivered from its dependencies. */
  lemma RespectfulIff(cfg: Config, logs: seq<seq<Event>>)
    requires cfg.Valid() && |logs| == cfg.n
    ensures Validator.LogsRespectDependencies(RenderDependencies(cfg), RenderLogs(logs)) <==> Respectful(cfg, logs)
  {
    forall pid | 1 <= pid <= cfg.n
      ensures Validator.Respected(RenderDependencies(cfg), RenderLogs(logs), pid) <==> RespectedOf(cfg, logs, pid - 1)
    {
      RespectedIff(cfg, logs, pid - 1);
    }
    if Validator.LogsRespectDependencies(RenderDependencies(cfg), RenderLogs(logs)) {
      forall p | 0 <= p < cfg.n
        ensures RespectedOf(cfg, logs, p)
      {
        assert Validator.Respected(RenderDependencies(cfg), RenderLogs(logs), p + 1);
      }
    }
  }
}
