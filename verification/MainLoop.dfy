/** The main loop of a process until it has broadcast everything, as a function of what arrives. */
module MainLoop {
  import opened Messages
  import Link
  import Stack

  /** What the queue of arrivals gives in one iteration. */
  datatype Arrival = Nothing | Frame(sender: nat, frame: Link.Frame)

  ghost predicate Handleable(cfg: Config, a: Arrival) {
    a.Frame? ==> Stack.Handleable(cfg, a.sender, a.frame)
  }

  /** `quota` is the number of receptions still allowed before the next broadcast. */
  datatype Progress = Progress(x: Stack.State, quota: nat)

  /** One iteration: take what arrived if the quota allows it, and broadcast otherwise. */
  function Iterate(cfg: Config, id: nat, connections: seq<nat>, numMessages: nat, before: Progress,
                   a: Arrival): (r: Progress)
    requires Stack.WellFormed(cfg, id, connections, before.x) && Handleable(cfg, a)
    ensures Stack.WellFormed(cfg, id, connections, r.x)
    ensures if before.quota > 0 && a != Nothing then r.x.proc.next == before.x.proc.next && r.quota == before.quota - 1
            else r.x.proc.next == before.x.proc.next + 1 && r.quota == numMessages
  {
    if before.quota > 0 && a != Nothing then
      Progress(Stack.OnFrame(cfg, id, connections, before.x, a.sender, a.frame), before.quota - 1)
    else
      Progress(Stack.OnBroadcast(cfg, id, connections, before.x), numMessages)
  }

  datatype Outcome = Outcome(x: Stack.State, iterations: nat)

  /** Iterations `i`, `i + 1`, ... until `numMessages` messages are broadcast. */
  function Loop(cfg: Config, id: nat, connections: seq<nat>, numMessages: nat, arrivals: nat -> Arrival, i: nat,
                from: Progress): Outcome
    requires Stack.WellFormed(cfg, id, connections, from.x)
    requires forall j :: Handleable(cfg, arrivals(j))
    decreases if from.x.proc.next < numMessages then numMessages - from.x.proc.next else 0, from.quota
  {
    if from.x.proc.next >= numMessages then Outcome(from.x, i)
    else
      Loop(cfg, id, connections, numMessages, arrivals, i + 1,
           Iterate(cfg, id, connections, numMessages, from, arrivals(i)))
  }

  /** The iterations that are left, at most: the quota of this round, a broadcast, and the rounds after it. */
  function Budget(numMessages: nat, next: nat, quota: nat): nat
    decreases if next < numMessages then numMessages - next else 0
  {
    if next >= numMessages then 0 else quota + 1 + Budget(numMessages, next + 1, numMessages)
  }

  /** The number of the iteration after the last, without the states. */
  function Count(numMessages: nat, arrivals: nat -> Arrival, i: nat, next: nat, quota: nat): nat
    decreases if next < numMessages then numMessages - next else 0, quota
  {
    if next >= numMessages then i
    else if quota > 0 && arrivals(i) != Nothing then Count(numMessages, arrivals, i + 1, next, quota - 1)
    else Count(numMessages, arrivals, i + 1, next + 1, numMessages)
  }

  /** However much arrives, the budget suffices: receptions cannot starve broadcasts. */
  lemma {:induction false} CountBound(numMessages: nat, arrivals: nat -> Arrival, i: nat, next: nat, quota: nat)
    ensures Count(numMessages, arrivals, i, next, quota) <= i + Budget(numMessages, next, quota)
    decreases if next < numMessages then numMessages - next else 0, quota
  {
    if next < numMessages {
      if quota > 0 && arrivals(i) != Nothing {
        CountBound(numMessages, arrivals, i + 1, next, quota - 1);
      } else {
        CountBound(numMessages, arrivals, i + 1, next + 1, numMessages);
      }
    }
  }

  lemma Iterated(cfg: Config, id: nat, connections: seq<nat>, numMessages: nat, arrivals: nat -> Arrival, i: nat,
                 from: Progress) returns (next: Progress)
    requires Stack.WellFormed(cfg, id, connections, from.x) && from.x.proc.next < numMessages
    requires forall j :: Handleable(cfg, arrivals(j))
    ensures Stack.WellFormed(cfg, id, connections, next.x)
    ensures Loop(cfg, id, connections, numMessages, arrivals, i, from)
         == Loop(cfg, id, connections, numMessages, arrivals, i + 1, next)
    ensures if from.quota > 0 && arrivals(i) != Nothing
            then next.x.proc.next == from.x.proc.next && next.quota == from.quota - 1
            else next.x.proc.next == from.x.proc.next + 1 && next.quota == numMessages
  {
    next := Iterate(cfg, id, connections, numMessages, from, arrivals(i));
  }

  lemma CountOn(numMessages: nat, arrivals: nat -> Arrival, i: nat, next: nat, quota: nat, next': nat, quota': nat)
    requires next < numMessages
    requires if quota > 0 && arrivals(i) != Nothing then next' == next && quota' == quota - 1
             else next' == next + 1 && quota' == numMessages
    ensures Count(numMessages, arrivals, i, next, quota) == Count(numMessages, arrivals, i + 1, next', quota')
    ensures next' <= numMessages && (next' > next || quota' < quota)
  {}

  lemma OneIteration(cfg: Config, id: nat, connections: seq<nat>, numMessages: nat, arrivals: nat -> Arrival, i: nat,
                     from: Progress) returns (next: Progress)
    requires Stack.WellFormed(cfg, id, connections, from.x) && from.x.proc.next < numMessages
    requires forall j :: Handleable(cfg, arrivals(j))
    ensures Stack.WellFormed(cfg, id, connections, next.x)
    ensures Loop(cfg, id, connections, numMessages, arrivals, i, from)
         == Loop(cfg, id, connections, numMessages, arrivals, i + 1, next)
    ensures Count(numMessages, arrivals, i, from.x.proc.next, from.quota)
         == Count(numMessages, arrivals, i + 1, next.x.proc.next, next.quota)
    ensures from.x.proc.next <= next.x.proc.next <= numMessages
    ensures next.x.proc.next > from.x.proc.next || next.quota < from.quota
  {
    next := Iterated(cfg, id, connections, numMessages, arrivals, i, from);
    CountOn(numMessages, arrivals, i, from.x.proc.next, from.quota, next.x.proc.next, next.quota);
  }

  lemma {:induction false} LoopCounts(cfg: Config, id: nat, connections: seq<nat>, numMessages: nat,
                                      arrivals: nat -> Arrival, i: nat, from: Progress)
    requires Stack.WellFormed(cfg, id, connections, from.x)
    requires forall j :: Handleable(cfg, arrivals(j))
    requires from.x.proc.next <= numMessages
    ensures var end := Loop(cfg, id, connections, numMessages, arrivals, i, from);
      && end.x.proc.next == numMessages
      && end.iterations == Count(numMessages, arrivals, i, from.x.proc.next, from.quota)
    decreases numMessages - from.x.proc.next, from.quota
  {
    if from.x.proc.next < numMessages {
      var next := OneIteration(cfg, id, connections, numMessages, arrivals, i, from);
      LoopCounts(cfg, id, connections, numMessages, arrivals, i + 1, next);
    } else {
      LoopEnds(cfg, id, connections, numMessages, arrivals, i, from);
    }
  }

  lemma LoopEnds(cfg: Config, id: nat, connections: seq<nat>, numMessages: nat, arrivals: nat -> Arrival, i: nat,
                 from: Progress)
    requires Stack.WellFormed(cfg, id, connections, from.x)
    requires forall j :: Handleable(cfg, arrivals(j))
    requires from.x.proc.next >= numMessages
    ensures Loop(cfg, id, connections, numMessages, arrivals, i, from) == Outcome(from.x, i)
  {}

  lemma {:induction false} BudgetValue(numMessages: nat, next: nat, quota: nat)
    requires next < numMessages
    ensures Budget(numMessages, next, quota) == (numMessages - next - 1) * (numMessages + 1) + quota + 1
    decreases numMessages - next
  {
    if next + 1 < numMessages {
      BudgetValue(numMessages, next + 1, numMessages);
      OneRoundLess(numMessages - next - 1, numMessages + 1);
    }
  }

  lemma OneRoundLess(rounds: nat, length: nat)
    requires rounds >= 1
    ensures rounds * length == (rounds - 1) * length + length
  {}

  /** From the start, `m` messages take at most `m * (m + 1)` iterations. */
  lemma LoopBound(cfg: Config, id: nat, connections: seq<nat>, numMessages: nat, arrivals: nat -> Arrival,
                       x: Stack.State)
    requires Stack.WellFormed(cfg, id, connections, x) && x.proc.next == 0
    requires forall j :: Handleable(cfg, arrivals(j))
    ensures var end := Loop(cfg, id, connections, numMessages, arrivals, 0, Progress(x, numMessages));
      end.x.proc.next == numMessages && end.iterations <= numMessages * (numMessages + 1)
  {
    LoopCounts(cfg, id, connections, numMessages, arrivals, 0, Progress(x, numMessages));
    CountBound(numMessages, arrivals, 0, 0, numMessages);
    if numMessages > 0 {
      BudgetValue(numMessages, 0, numMessages);
      OneRoundLess(numMessages, numMessages + 1);
    }
  }
}
