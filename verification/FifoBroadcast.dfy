/** FIFO broadcast, the simpler ordering layer: it releases the messages of each originator in sequence.
    Localized causal broadcast without dependencies does exactly the same. */
module FifoBroadcast {
  import opened Messages
  import CausalOrder
  import Confluence
  import FiniteSets

  /** Least number first. */
  ghost predicate Sorted(queue: seq<Body>) {
    forall i, j :: 0 <= i < j < |queue| ==> queue[i].seqNum <= queue[j].seqNum
  }

  lemma {:induction false} PushSorted(queue: seq<Body>, b: Body)
    requires Sorted(queue)
    ensures Sorted(CausalOrder.Push(queue, b))
  {
    if queue != [] && b.seqNum >= queue[0].seqNum {
      PushSorted(queue[1..], b);
      CausalOrder.PushContents(queue[1..], b);
      forall x | x in CausalOrder.Push(queue[1..], b)
        ensures queue[0].seqNum <= x.seqNum
      {}
    }
  }

  /** In-order release by number. An empty queue has no next element. */
  class MonotonicQueue {
    var queue: seq<Body>
    var expectedNext: nat

    constructor ()
      ensures queue == [] && expectedNext == 0
    {
      queue, expectedNext := [], 0;
    }

    method Add(item: Body)
      requires Sorted(queue)
      modifies this`queue
      ensures Sorted(queue) && queue == CausalOrder.Push(old(queue), item)
    {
      PushSorted(queue, item);
      queue := CausalOrder.Push(queue, item);
    }

    predicate HasNext()
      reads this
    {
      queue != [] && queue[0].seqNum == expectedNext
    }

    /** Removes the item with the least number. */
    method PopNext() returns (item: Body)
      requires queue != [] && Sorted(queue)
      modifies this
      ensures item in old(queue) && forall x :: x in old(queue) ==> item.seqNum <= x.seqNum
      ensures [item] + queue == old(queue) && Sorted(queue) && expectedNext == old(expectedNext) + 1
    {
      item := queue[0];
      queue := queue[1..];
      expectedNext := expectedNext + 1;
    }
  }

  /** What one queue releases, and what remains of it. */
  datatype Released = Released(queue: seq<Body>, expectedNext: nat, items: seq<Body>)

  function Release(queue: seq<Body>, expectedNext: nat): Released {
    if queue != [] && queue[0].seqNum == expectedNext then
      var rest := Release(queue[1..], expectedNext + 1);
      rest.(items := [queue[0]] + rest.items)
    else Released(queue, expectedNext, [])
  }

  function Deliveries(items: seq<Body>): seq<Event> {
    seq(|items|, i requires 0 <= i < |items| => Event.Deliver(items[i]))
  }

  /** Releasing from queue `o`, on the state that FIFO shares with the causal layer. */
  function ReleaseAll(st: CausalOrder.State, o: nat): (r: CausalOrder.State)
    requires o < |st.queues| == |st.clock|
    ensures |r.queues| == |r.clock| == |st.queues|
  {
    var r := Release(st.queues[o], st.clock[o]);
    CausalOrder.State(st.queues[o := r.queue], st.clock[o := r.expectedNext], st.log + Deliveries(r.items))
  }

  function Accept(st: CausalOrder.State, b: Body): (r: CausalOrder.State)
    requires b.originator < |st.queues| == |st.clock|
    ensures |r.queues| == |r.clock| == |st.queues|
  {
    var o := b.originator;
    ReleaseAll(st.(queues := st.queues[o := CausalOrder.Push(st.queues[o], b)]), o)
  }

  class Fifo {
    const ordered: seq<MonotonicQueue>
    var events: seq<Event>

    ghost predicate Valid()
      reads ordered
    {
      && (forall i, j :: 0 <= i < j < |ordered| ==> ordered[i] != ordered[j])
      && forall i :: 0 <= i < |ordered| ==> Sorted(ordered[i].queue)
    }

    ghost function State(): CausalOrder.State
      reads this, ordered
    {
      CausalOrder.State(
        seq(|ordered|, i requires 0 <= i < |ordered| reads ordered => ordered[i].queue),
        seq(|ordered|, i requires 0 <= i < |ordered| reads ordered => ordered[i].expectedNext),
        events)
    }

    constructor (n: nat)
      ensures Valid() && fresh(ordered) && State() == CausalOrder.Init(n)
    {
      var made: seq<MonotonicQueue> := [];
      while |made| < n
        invariant |made| <= n
        invariant forall i :: 0 <= i < |made| ==> fresh(made[i]) && made[i].queue == [] && made[i].expectedNext == 0
        invariant forall i, j :: 0 <= i < j < |made| ==> made[i] != made[j]
      {
        var queue := new MonotonicQueue();
        made := made + [queue];
      }
      ordered, events := made, [];
    }

    /** Files the message and releases from its queue while the next number is there. */
    method Deliver(b: Body)
      requires Valid() && b.originator < |ordered|
      modifies this, ordered[b.originator]
      ensures Valid() && State() == Accept(old(State()), b)
    {
      ordered[b.originator].Add(b);
      ReleaseFrom(ordered[b.originator]);
    }

    method ReleaseFrom(queue: MonotonicQueue)
      requires Sorted(queue.queue)
      modifies this, queue
      ensures Sorted(queue.queue)
      ensures var r := Release(old(queue.queue), old(queue.expectedNext));
        queue.queue == r.queue && queue.expectedNext == r.expectedNext && events == old(events) + Deliveries(r.items)
    {
      ghost var goal := Release(queue.queue, queue.expectedNext);
      ghost var items: seq<Body> := [];
      while queue.HasNext()
        invariant Sorted(queue.queue)
        invariant var r := Release(queue.queue, queue.expectedNext);
          goal == r.(items := items + r.items)
        invariant events == old(events) + Deliveries(items)
        decreases |queue.queue|
      {
        var item := queue.PopNext();
        events := events + [Event.Deliver(item)];
        ghost var rest := Release(queue.queue, queue.expectedNext).items;
        assert items + ([item] + rest) == (items + [item]) + rest;
        items := items + [item];
      }
      assert items + [] == items;
    }
  }

  ghost predicate NoDependencies(cfg: Config) {
    cfg.Valid() && forall p :: 0 <= p < cfg.n ==> cfg.deps[p] == []
  }

  /** Only queue `o` may be ready. */
  ghost predicate OthersStuck(cfg: Config, st: CausalOrder.State, o: nat)
    requires CausalOrder.WellFormed(cfg, st)
  {
    forall p :: 0 <= p < cfg.n && p != o ==> !CausalOrder.Ready(cfg, st, p)
  }

  lemma ReleaseAllStep(cfg: Config, st: CausalOrder.State, o: nat)
    requires CausalOrder.WellFormed(cfg, st) && o < cfg.n
    ensures st.queues[o] != [] && st.queues[o][0].seqNum == st.clock[o] ==>
              ReleaseAll(st, o) == ReleaseAll(CausalOrder.Release(cfg, st, o), o)
    ensures st.queues[o] == [] || st.queues[o][0].seqNum != st.clock[o] ==> ReleaseAll(st, o) == st
  {
    if st.queues[o] != [] && st.queues[o][0].seqNum == st.clock[o] {
      var head, rest := st.queues[o][0], Release(st.queues[o][1..], st.clock[o] + 1);
      assert Deliveries([head] + rest.items) == [Event.Deliver(head)] + Deliveries(rest.items);
    } else {
      assert Deliveries([]) == [];
    }
  }

  /** Without dependencies the scan empties one queue, as far as the numbers go. */
  lemma {:induction false} DrainIsRelease(cfg: Config, st: CausalOrder.State, received: set<Body>, o: nat)
    requires NoDependencies(cfg) && CausalOrder.Represents(cfg, st, received)
    requires o < cfg.n && OthersStuck(cfg, st, o)
    ensures CausalOrder.Drain(cfg, st) == ReleaseAll(st, o)
    decreases |st.queues[o]|
  {
    ReleaseAllStep(cfg, st, o);
    if st.queues[o] != [] && st.queues[o][0].seqNum == st.clock[o] {
      assert st.queues[o][0] in st.queues[o];
      CausalOrder.DrainStep(cfg, st, o);
      CausalOrder.ReleaseKeeps(cfg, st, received, o);
      OthersStayStuck(cfg, st, o);
      DrainIsRelease(cfg, CausalOrder.Release(cfg, st, o), received, o);
    } else {
      NotReady(cfg, st, received, o);
      CausalOrder.DrainStep(cfg, st, cfg.n);
    }
  }

  lemma OthersStayStuck(cfg: Config, st: CausalOrder.State, o: nat)
    requires NoDependencies(cfg) && CausalOrder.WellFormed(cfg, st)
    requires o < cfg.n && st.queues[o] != [] && OthersStuck(cfg, st, o)
    ensures OthersStuck(cfg, CausalOrder.Release(cfg, st, o), o)
  {
    var next := CausalOrder.Release(cfg, st, o);
    forall p | 0 <= p < cfg.n && p != o
      ensures !CausalOrder.Ready(cfg, next, p)
    {
      assert !CausalOrder.Ready(cfg, st, p);
    }
  }

  lemma NotReady(cfg: Config, st: CausalOrder.State, received: set<Body>, o: nat)
    requires CausalOrder.Represents(cfg, st, received) && o < cfg.n
    requires st.queues[o] == [] || st.queues[o][0].seqNum != st.clock[o]
    ensures !CausalOrder.Ready(cfg, st, o)
  {
    if st.queues[o] != [] {
      assert st.queues[o][0] in st.queues[o];
    }
  }

  ghost function Run(cfg: Config, arrivals: seq<Body>): (st: CausalOrder.State)
    requires Confluence.Arrivals(cfg, arrivals)
    ensures |st.queues| == |st.clock| == cfg.n
  {
    if arrivals == [] then CausalOrder.Init(cfg.n)
    else
      var b := arrivals[|arrivals| - 1];
      assert b in arrivals;
      Accept(Run(cfg, arrivals[..|arrivals| - 1]), b)
  }

  lemma LastIsNew(cfg: Config, arrivals: seq<Body>)
    requires Confluence.Arrivals(cfg, arrivals) && arrivals != []
    ensures cfg.Admits(arrivals[|arrivals| - 1]) && Confluence.Arrivals(cfg, arrivals[..|arrivals| - 1])
    ensures forall a :: a in FiniteSets.Elements(arrivals[..|arrivals| - 1]) ==> a.Id() != arrivals[|arrivals| - 1].Id()
  {
    assert arrivals[|arrivals| - 1] in arrivals;
  }

  lemma SameStep(cfg: Config, st: CausalOrder.State, received: set<Body>, b: Body)
    requires NoDependencies(cfg) && CausalOrder.Represents(cfg, st, received) && CausalOrder.Stuck(cfg, st)
    requires cfg.Admits(b) && forall a :: a in received ==> a.Id() != b.Id()
    ensures Accept(st, b) == CausalOrder.Accept(cfg, st, b)
  {
    CausalOrder.NotYetDelivered(cfg, st, received, b);
    CausalOrder.ArriveKeeps(cfg, st, received, b);
    var arrived := CausalOrder.Arrive(cfg, st, b);
    forall p | 0 <= p < cfg.n && p != b.originator
      ensures !CausalOrder.Ready(cfg, arrived, p)
    {
      assert !CausalOrder.Ready(cfg, st, p);
    }
    DrainIsRelease(cfg, arrived, received + {b}, b.originator);
  }

  /** Main result: with empty dependency lists, localized causal broadcast delivers the same messages in
      the same order as FIFO broadcast, from any arrivals. */
  lemma {:induction false} SameAsCausalWithoutDependencies(cfg: Config, arrivals: seq<Body>)
    requires NoDependencies(cfg) && Confluence.Arrivals(cfg, arrivals)
    ensures Run(cfg, arrivals) == Confluence.Run(cfg, arrivals)
  {
    if arrivals != [] {
      var front, b := arrivals[..|arrivals| - 1], arrivals[|arrivals| - 1];
      SameAsCausalWithoutDependencies(cfg, front);
      Confluence.RunRepresents(cfg, front);
      LastIsNew(cfg, arrivals);
      SameStep(cfg, Confluence.Run(cfg, front), FiniteSets.Elements(front), b);
    }
  }
}
