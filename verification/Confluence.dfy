/** The outcome of localized causal broadcast at one process does not depend on the order in which
    messages arrive from below, and is the largest outcome that causality allows. */
module Confluence {
  import opened Messages
  import opened CausalOrder
  import opened FiniteSets

  ghost predicate Arrivals(cfg: Config, arrivals: seq<Body>) {
    && cfg.Valid()
    && (forall b :: b in arrivals ==> cfg.Admits(b))
    && forall i, j :: 0 <= i < j < |arrivals| ==> arrivals[i].Id() != arrivals[j].Id()
  }

  /** The state after the given messages arrived one by one. */
  ghost function Run(cfg: Config, arrivals: seq<Body>): (st: State)
    requires Arrivals(cfg, arrivals)
    ensures WellFormed(cfg, st)
  {
    if arrivals == [] then Init(cfg.n)
    else Accept(cfg, Run(cfg, arrivals[..|arrivals| - 1]), arrivals[|arrivals| - 1])
  }

  lemma {:induction false} RunRepresents(cfg: Config, arrivals: seq<Body>)
    requires Arrivals(cfg, arrivals)
    ensures Represents(cfg, Run(cfg, arrivals), Elements(arrivals)) && Stuck(cfg, Run(cfg, arrivals))
  {
    if arrivals == [] {
      InitRepresents(cfg);
      assert Elements(arrivals) == {};
    } else {
      var front, last := arrivals[..|arrivals| - 1], arrivals[|arrivals| - 1];
      RunRepresents(cfg, front);
      AcceptKeeps(cfg, Run(cfg, front), Elements(front), last);
      assert Elements(arrivals) == Elements(front) + {last};
    }
  }

  /** No log over the received messages gets ahead of a stuck state. */
  lemma {:induction false} StuckIsAhead(cfg: Config, log: seq<Event>, st: State, received: set<Body>)
    requires OrderedLog(cfg, log, received)
    requires Represents(cfg, st, received) && Stuck(cfg, st)
    ensures forall o :: 0 <= o < cfg.n ==> Delivered(log, o) <= st.clock[o]
  {
    if log != [] {
      var front, e := log[..|log| - 1], log[|log| - 1];
      OrderedPrefix(cfg, log, received, |log| - 1);
      StuckIsAhead(cfg, front, st, received);
      if e.Deliver? && Delivered(front, e.body.originator) == st.clock[e.body.originator] {
        NextIsReady(cfg, st, received, e.body);
        assert false;
      }
    }
  }

  lemma FirstIsLeast(queue: seq<Body>, b: Body)
    requires Ascending(queue) && b in queue
    ensures queue[0].seqNum <= b.seqNum
    ensures queue[0].seqNum == b.seqNum ==> queue[0] == b
  {
    var i :| 0 <= i < |queue| && queue[i] == b;
  }

  /** A received message that is next in line and whose dependencies are met tops its heap. */
  lemma NextIsReady(cfg: Config, st: State, received: set<Body>, b: Body)
    requires Represents(cfg, st, received) && b in received
    requires b.seqNum == st.clock[b.originator] && DependenciesMet(cfg, st.clock, b)
    ensures Ready(cfg, st, b.originator)
  {
    var q := st.queues[b.originator];
    assert b in q;
    FirstIsLeast(q, b);
    assert q[0] in q;
  }

  lemma Member(queue: seq<Body>) returns (b: Body)
    requires queue != []
    ensures b in queue
  {
    b := queue[0];
  }

  lemma {:induction false} AscendingUnique(q: seq<Body>, r: seq<Body>)
    requires Ascending(q) && Ascending(r)
    requires forall b :: b in q <==> b in r
    ensures q == r
  {
    if q == [] {
      if r != [] {
        var b := Member(r);
        assert false;
      }
    } else {
      assert q[0] in r;
      FirstIsLeast(r, q[0]);
      FirstIsLeast(q, r[0]);
      TailElements(q, r);
      AscendingUnique(q[1..], r[1..]);
    }
  }

  lemma TailElements(q: seq<Body>, r: seq<Body>)
    requires Ascending(q) && Ascending(r) && q != [] && r != [] && q[0] == r[0]
    requires forall b :: b in q <==> b in r
    ensures forall b :: b in q[1..] <==> b in r[1..]
  {
    forall b
      ensures b in q[1..] <==> b in r[1..]
    {
      assert b in q <==> b == q[0] || b in q[1..];
      assert b in r <==> b == r[0] || b in r[1..];
      assert q[0] !in q[1..] && r[0] !in r[1..];
    }
  }

  lemma SameClock(cfg: Config, st: State, st': State, received: set<Body>)
    requires Represents(cfg, st, received) && Stuck(cfg, st)
    requires Represents(cfg, st', received) && Stuck(cfg, st')
    ensures st.clock == st'.clock
  {
    StuckIsAhead(cfg, st.log, st', received);
    StuckIsAhead(cfg, st'.log, st, received);
  }

  lemma SameQueue(cfg: Config, st: State, st': State, received: set<Body>, o: nat)
    requires Represents(cfg, st, received) && Represents(cfg, st', received)
    requires st.clock == st'.clock && o < cfg.n
    ensures st.queues[o] == st'.queues[o]
  {
    forall b
      ensures b in st.queues[o] <==> b in st'.queues[o]
    {
      assert HoldsWaiting(st.queues[o], o, st.clock[o], received);
      assert HoldsWaiting(st'.queues[o], o, st'.clock[o], received);
    }
    AscendingUnique(st.queues[o], st'.queues[o]);
  }

  /** Two stuck states over the same received messages agree on everything but the log order. */
  lemma SameOutcome(cfg: Config, st: State, st': State, received: set<Body>)
    requires Represents(cfg, st, received) && Stuck(cfg, st)
    requires Represents(cfg, st', received) && Stuck(cfg, st')
    ensures st.clock == st'.clock && st.queues == st'.queues
  {
    SameClock(cfg, st, st', received);
    assert |st.queues| == |st'.queues| == cfg.n;
    forall o | 0 <= o < |st.queues|
      ensures st.queues[o] == st'.queues[o]
    {
      SameQueue(cfg, st, st', received, o);
    }
  }

  ghost function DeliveredSet(log: seq<Event>): set<Body> {
    set i | 0 <= i < |log| && log[i].Deliver? :: log[i].body
  }

  /** What a log delivered is what was received below the clock. */
  lemma DeliveredSetIsPrefix(cfg: Config, st: State, received: set<Body>)
    requires Represents(cfg, st, received)
    ensures DeliveredSet(st.log) == set b | b in received && b.seqNum < st.clock[b.originator]
  {
    forall b | b in received && b.seqNum < st.clock[b.originator]
      ensures b in DeliveredSet(st.log)
    {
      var i := DeliveredEvent(cfg, st.log, received, b.originator, b.seqNum);
      assert st.log[i].body.Id() == b.Id();
    }
    forall i | 0 <= i < |st.log| && st.log[i].Deliver?
      ensures st.log[i].body.seqNum < st.clock[st.log[i].body.originator]
    {
      DeliveredAfter(st.log, i, |st.log|);
      assert st.log[..|st.log|] == st.log;
    }
  }

  /** Main result: every order of arrival leaves the same clock, the same waiting messages and the
      same set of delivered messages. */
  lemma OrderInsensitive(cfg: Config, xs: seq<Body>, ys: seq<Body>)
    requires Arrivals(cfg, xs) && Arrivals(cfg, ys)
    requires Elements(xs) == Elements(ys)
    ensures Run(cfg, xs).clock == Run(cfg, ys).clock
    ensures Run(cfg, xs).queues == Run(cfg, ys).queues
    ensures DeliveredSet(Run(cfg, xs).log) == DeliveredSet(Run(cfg, ys).log)
  {
    RunRepresents(cfg, xs);
    RunRepresents(cfg, ys);
    SameOutcome(cfg, Run(cfg, xs), Run(cfg, ys), Elements(xs));
    DeliveredSetIsPrefix(cfg, Run(cfg, xs), Elements(xs));
    DeliveredSetIsPrefix(cfg, Run(cfg, ys), Elements(xs));
  }

  // ------------------------------------------------------------------------------------------
  // The clock is the greatest causally closed prefix of what was received.
  // ------------------------------------------------------------------------------------------

  ghost predicate Supported(cfg: Config, c: seq<nat>, received: set<Body>, k: Key)
    requires cfg.Valid() && |c| == cfg.n
  {
    exists b :: b in received && b.Id() == k && cfg.Admits(b) && DependenciesMet(cfg, c, b)
  }

  /** Every message counted by `c` was received, and depends only on messages counted by `c`. */
  ghost predicate ClosedPrefix(cfg: Config, c: seq<nat>, received: set<Body>)
    requires cfg.Valid() && |c| == cfg.n
  {
    forall o: nat, s: nat :: o < cfg.n && s < c[o] ==> Supported(cfg, c, received, Key(o, s))
  }

  lemma ClockIsClosedPrefix(cfg: Config, st: State, received: set<Body>)
    requires Represents(cfg, st, received)
    ensures ClosedPrefix(cfg, st.clock, received)
  {
    forall o: nat, s: nat | o < cfg.n && s < st.clock[o]
      ensures Supported(cfg, st.clock, received, Key(o, s))
    {
      var i := DeliveredEvent(cfg, st.log, received, o, s);
      var b := st.log[i].body;
      forall d | 0 <= d < |b.vectorClock|
        ensures b.vectorClock[d] <= st.clock[cfg.deps[o][d]]
      {
        DeliveredMonotone(st.log, i, |st.log|, cfg.deps[o][d]);
        assert st.log[..|st.log|] == st.log;
      }
      assert b.Id() == Key(o, s) && DependenciesMet(cfg, st.clock, b);
    }
  }

  /** Of the first `j` messages of the history, those that `c` counts are delivered. */
  ghost predicate DeliveredUpTo(history: seq<Body>, j: nat, c: seq<nat>, clock: seq<nat>)
    requires j <= |history|
  {
    forall k :: 0 <= k < j ==>
      var o := history[k].originator;
      o < |c| && o < |clock| && history[k].seqNum < c[o] ==> history[k].seqNum < clock[o]
  }

  lemma KnownIsDelivered(history: seq<Body>, j: nat, c: seq<nat>, clock: seq<nat>, k: Key)
    requires j <= |history| && DeliveredUpTo(history, j, c, clock) && Known(history, j, k)
    requires k.originator < |c| && k.originator < |clock| && k.seqNum < c[k.originator]
    ensures k.seqNum < clock[k.originator]
  {
    var i :| 0 <= i < j && history[i].Id() == k;
  }

  /** If what precedes `b` in the history is delivered as far as `c` counts it, nothing is in the way
      of `b`. */
  lemma PastDelivered(cfg: Config, history: seq<Body>, j: nat, c: seq<nat>, clock: seq<nat>, b: Body)
    requires cfg.Valid() && |c| == |clock| == cfg.n && j <= |history|
    requires PastKnown(cfg, history, j, b) && DeliveredUpTo(history, j, c, clock)
    requires b.seqNum < c[b.originator] && DependenciesMet(cfg, c, b)
    ensures b.seqNum <= clock[b.originator] && DependenciesMet(cfg, clock, b)
  {
    if b.seqNum > 0 {
      KnownIsDelivered(history, j, c, clock, Key(b.originator, b.seqNum - 1));
    }
    forall i | 0 <= i < |b.vectorClock|
      ensures b.vectorClock[i] <= clock[cfg.deps[b.originator][i]]
    {
      if b.vectorClock[i] > 0 {
        KnownIsDelivered(history, j, c, clock, Key(cfg.deps[b.originator][i], b.vectorClock[i] - 1));
      }
    }
  }

  lemma CountedIsDelivered(cfg: Config, history: seq<Body>, st: State, received: set<Body>, c: seq<nat>, j: nat)
    requires Represents(cfg, st, received) && Stuck(cfg, st)
    requires CausalHistory(cfg, history) && forall b :: b in received ==> b in history
    requires |c| == cfg.n && ClosedPrefix(cfg, c, received)
    requires j < |history| && DeliveredUpTo(history, j, c, st.clock)
    requires history[j].seqNum < c[history[j].originator]
    ensures history[j].seqNum < st.clock[history[j].originator]
  {
    var b := history[j];
    assert Supported(cfg, c, received, Key(b.originator, b.seqNum));
    var b' :| b' in received && b'.Id() == Key(b.originator, b.seqNum) && DependenciesMet(cfg, c, b');
    assert b' == b by {
      var i :| 0 <= i < |history| && history[i] == b';
      assert history[i].Id() == history[j].Id();
    }
    PastDelivered(cfg, history, j, c, st.clock, b);
    if b.seqNum == st.clock[b.originator] {
      NextIsReady(cfg, st, received, b);
      assert false;
    }
  }

  /** Going through the messages in broadcast order: what a closed prefix counts, a stuck state has
      delivered. */
  lemma {:induction false} PrefixDelivered(cfg: Config, history: seq<Body>, st: State, received: set<Body>,
                                           c: seq<nat>, j: nat)
    requires Represents(cfg, st, received) && Stuck(cfg, st)
    requires CausalHistory(cfg, history) && forall b :: b in received ==> b in history
    requires |c| == cfg.n && ClosedPrefix(cfg, c, received)
    requires j <= |history|
    ensures DeliveredUpTo(history, j, c, st.clock)
  {
    if j > 0 {
      PrefixDelivered(cfg, history, st, received, c, j - 1);
      NextDelivered(cfg, history, st, received, c, j - 1);
    }
  }

  lemma NextDelivered(cfg: Config, history: seq<Body>, st: State, received: set<Body>, c: seq<nat>, j: nat)
    requires Represents(cfg, st, received) && Stuck(cfg, st)
    requires CausalHistory(cfg, history) && forall b :: b in received ==> b in history
    requires |c| == cfg.n && ClosedPrefix(cfg, c, received)
    requires j < |history| && DeliveredUpTo(history, j, c, st.clock)
    ensures DeliveredUpTo(history, j + 1, c, st.clock)
  {
    var b := history[j];
    if b.originator < cfg.n && b.seqNum < c[b.originator] {
      CountedIsDelivered(cfg, history, st, received, c, j);
    }
  }

  /** Main result: in a history where messages are broadcast after what they depend on, the clock is
      the greatest causally closed prefix of the received messages. */
  lemma ClockIsGreatestPrefix(cfg: Config, history: seq<Body>, st: State, received: set<Body>, c: seq<nat>)
    requires Represents(cfg, st, received) && Stuck(cfg, st)
    requires CausalHistory(cfg, history) && forall b :: b in received ==> b in history
    requires |c| == cfg.n && ClosedPrefix(cfg, c, received)
    ensures ClosedPrefix(cfg, st.clock, received)
    ensures forall o :: 0 <= o < cfg.n ==> c[o] <= st.clock[o]
  {
    ClockIsClosedPrefix(cfg, st, received);
    PrefixDelivered(cfg, history, st, received, c, |history|);
    forall o | 0 <= o < cfg.n
      ensures c[o] <= st.clock[o]
    {
      if c[o] > 0 {
        var last: nat := c[o] - 1;
        assert Supported(cfg, c, received, Key(o, last));
        var b :| b in received && b.Id() == Key(o, last);
        var k :| 0 <= k < |history| && history[k] == b;
        assert history[k].originator == o;
      }
    }
  }
}
