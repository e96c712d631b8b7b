/** What the delivery rule of localized causal broadcast does with a message that arrives again. It does
    not test for equality with the clock, so at-most-once delivery rests on the layer below. */
module Redelivery {
  import opened Messages
  import opened CausalOrder
  import Confluence

  ghost predicate DeliveredTwice(log: seq<Event>, k: Key) {
    exists i, j :: 0 <= i < j < |log| && IsDeliveryOf(log[i], k) && IsDeliveryOf(log[j], k)
  }

  predicate IsDeliveryOf(e: Event, k: Key) {
    e.Deliver? && e.body.Id() == k
  }

  /** An ordered log delivers no key twice. */
  lemma OrderedLogDeliversOnce(cfg: Config, log: seq<Event>, received: set<Body>, k: Key)
    requires OrderedLog(cfg, log, received)
    ensures !DeliveredTwice(log, k)
  {
    if DeliveredTwice(log, k) {
      var i, j :| 0 <= i < j < |log| && IsDeliveryOf(log[i], k) && IsDeliveryOf(log[j], k);
      DeliveredAfter(log, i, j);
      assert false;
    }
  }

  lemma {:induction false} DrainExtendsLog(cfg: Config, st: State)
    requires WellFormed(cfg, st)
    ensures st.log <= Drain(cfg, st).log
    decreases Waiting(st.queues)
  {
    var o := FirstReady(cfg, st, 0);
    if o < cfg.n {
      WaitingUpdate(st.queues, o, st.queues[o][1..]);
      DrainExtendsLog(cfg, Release(cfg, st, o));
    }
  }

  /** Nothing about the other heaps changes when a message arrives. */
  lemma OthersStayStuck(cfg: Config, st: State, b: Body)
    requires WellFormed(cfg, st) && Stuck(cfg, st) && cfg.Admits(b)
    ensures forall o :: 0 <= o < cfg.n && o != b.originator ==> !Ready(cfg, Arrive(cfg, st, b), o)
  {
    forall o | 0 <= o < cfg.n && o != b.originator
      ensures !Ready(cfg, Arrive(cfg, st, b), o)
    {
      assert !Ready(cfg, st, o);
    }
  }

  /** The dependencies of a delivered message stay met. */
  lemma StillDeliverable(cfg: Config, st: State, received: set<Body>, b: Body)
    requires Represents(cfg, st, received) && b in received && b.seqNum < st.clock[b.originator]
    ensures CanDeliver(cfg, st.clock, b)
    ensures exists i :: 0 <= i < |st.log| && IsDeliveryOf(st.log[i], b.Id())
  {
    var i := DeliveredEvent(cfg, st.log, received, b.originator, b.seqNum);
    assert st.log[i].body == b && IsDeliveryOf(st.log[i], b.Id());
    forall d | 0 <= d < |b.vectorClock|
      ensures b.vectorClock[d] <= st.clock[cfg.deps[b.originator][d]]
    {
      DeliveredMonotone(st.log, i, |st.log|, cfg.deps[b.originator][d]);
      assert st.log[..|st.log|] == st.log;
    }
  }

  /** A message that was delivered and arrives again is delivered again, at once. */
  lemma RedeliveredAtOnce(cfg: Config, st: State, received: set<Body>, b: Body)
    requires Represents(cfg, st, received) && Stuck(cfg, st)
    requires b in received && b.seqNum < st.clock[b.originator]
    ensures st.log + [Event.Deliver(b)] <= Accept(cfg, st, b).log
  {
    var o, arrived := b.originator, Arrive(cfg, st, b);
    StillDeliverable(cfg, st, received, b);
    assert HoldsWaiting(st.queues[o], o, st.clock[o], received);
    assert st.queues[o] != [] ==> st.queues[o][0] in st.queues[o];
    assert arrived.queues[o] == [b] + st.queues[o];
    OthersStayStuck(cfg, st, b);
    DrainStep(cfg, arrived, o);
    DrainExtendsLog(cfg, Release(cfg, arrived, o));
  }

  /** A message that waits and arrives again waits twice. */
  lemma WaitsTwice(cfg: Config, st: State, received: set<Body>, b: Body)
    requires Represents(cfg, st, received) && Stuck(cfg, st)
    requires b in received && b.seqNum >= st.clock[b.originator]
    ensures Accept(cfg, st, b) == Arrive(cfg, st, b)
  {
    var o, arrived := b.originator, Arrive(cfg, st, b);
    var queue := st.queues[o];
    assert HoldsWaiting(queue, o, st.clock[o], received);
    var i :| 0 <= i < |queue| && queue[i] == b;
    assert queue[0].seqNum <= b.seqNum;
    assert arrived.queues[o][0] == queue[0] && !Ready(cfg, st, o);
    OthersStayStuck(cfg, st, b);
    DrainStep(cfg, arrived, cfg.n);
  }

  /** Main result: an arrival makes the log deliver its key twice exactly when its number is below the
      clock, that is, when its key had been delivered before. The rule does not look whether it was. */
  lemma RedeliveryIff(cfg: Config, st: State, received: set<Body>, b: Body)
    requires Represents(cfg, st, received) && Stuck(cfg, st)
    requires cfg.Admits(b) && Consistent(cfg, received + {b})
    ensures DeliveredTwice(Accept(cfg, st, b).log, b.Id()) <==> b.seqNum < st.clock[b.originator]
    ensures b.seqNum < st.clock[b.originator] <==> exists i :: 0 <= i < |st.log| && IsDeliveryOf(st.log[i], b.Id())
  {
    DeliveredIsBelowClock(cfg, st, received, b);
    if b.seqNum < st.clock[b.originator] {
      BelowClockIsReceived(cfg, st, received, b);
      SecondDelivery(cfg, st, received, b);
    } else if b in received {
      WaitsTwice(cfg, st, received, b);
      OrderedLogDeliversOnce(cfg, st.log, received, b.Id());
    } else {
      NewKey(cfg, received, b);
      AcceptKeeps(cfg, st, received, b);
      OrderedLogDeliversOnce(cfg, Accept(cfg, st, b).log, received + {b}, b.Id());
    }
  }

  lemma NewKey(cfg: Config, received: set<Body>, b: Body)
    requires Consistent(cfg, received + {b}) && b !in received
    ensures forall a :: a in received ==> a.Id() != b.Id()
  {}

  lemma BelowClockIsReceived(cfg: Config, st: State, received: set<Body>, b: Body)
    requires Represents(cfg, st, received) && cfg.Admits(b) && Consistent(cfg, received + {b})
    requires b.seqNum < st.clock[b.originator]
    ensures b in received
  {
    var i := DeliveredEvent(cfg, st.log, received, b.originator, b.seqNum);
    assert st.log[i].body.Id() == b.Id();
  }

  lemma DeliveredIsBelowClock(cfg: Config, st: State, received: set<Body>, b: Body)
    requires Represents(cfg, st, received) && cfg.Admits(b)
    ensures b.seqNum < st.clock[b.originator] <==> exists i :: 0 <= i < |st.log| && IsDeliveryOf(st.log[i], b.Id())
  {
    if b.seqNum < st.clock[b.originator] {
      var i := DeliveredEvent(cfg, st.log, received, b.originator, b.seqNum);
      assert IsDeliveryOf(st.log[i], b.Id());
    }
    if i :| 0 <= i < |st.log| && IsDeliveryOf(st.log[i], b.Id()) {
      DeliveredAfter(st.log, i, |st.log|);
      assert st.log[..|st.log|] == st.log;
    }
  }

  lemma SecondDelivery(cfg: Config, st: State, received: set<Body>, b: Body)
    requires Represents(cfg, st, received) && Stuck(cfg, st)
    requires b in received && b.seqNum < st.clock[b.originator]
    ensures DeliveredTwice(Accept(cfg, st, b).log, b.Id())
  {
    var log := Accept(cfg, st, b).log;
    RedeliveredAtOnce(cfg, st, received, b);
    DeliveredIsBelowClock(cfg, st, received, b);
    var i :| 0 <= i < |st.log| && IsDeliveryOf(st.log[i], b.Id());
    assert log[i] == st.log[i] && log[|st.log|] == Event.Deliver(b);
    assert IsDeliveryOf(log[|st.log|], b.Id());
  }

  /** In every configuration: a first message without dependencies that arrives twice is delivered twice. */
  lemma TwiceFromTheStart(cfg: Config, b: Body)
    requires cfg.Valid() && cfg.Admits(b) && b.seqNum == 0 && forall x :: x in b.vectorClock ==> x == 0
    ensures DeliveredTwice(Accept(cfg, Accept(cfg, Init(cfg.n), b), b).log, b.Id())
  {
    InitRepresents(cfg);
    AcceptKeeps(cfg, Init(cfg.n), {}, b);
    var st := Accept(cfg, Init(cfg.n), b);
    if st.clock[b.originator] == 0 {
      assert forall i :: 0 <= i < |b.vectorClock| ==> b.vectorClock[i] in b.vectorClock;
      Confluence.NextIsReady(cfg, st, {} + {b}, b);
      assert false;
    }
    RedeliveryIff(cfg, st, {} + {b}, b);
  }
}
