/** The delivery rule of localized causal broadcast for one process: one min-heap of waiting messages
    per originator, a clock that counts what was delivered, and a scan that starts over after every
    delivery. */
module CausalOrder {
  import opened Messages

  /** `queues[o]` is the heap of originator `o`, listed in ascending order of sequence number. */
  datatype State = State(queues: seq<seq<Body>>, clock: seq<nat>, log: seq<Event>)

  function Init(n: nat): State {
    State(seq(n, _ => []), seq(n, _ => 0), [])
  }

  /** Heap insertion. Equal numbers keep their order of arrival; in a run they do not occur. */
  function Push(queue: seq<Body>, b: Body): seq<Body> {
    if queue == [] || b.seqNum < queue[0].seqNum then [b] + queue
    else [queue[0]] + Push(queue[1..], b)
  }

  ghost predicate WellFormed(cfg: Config, st: State) {
    && cfg.Valid()
    && |st.queues| == |st.clock| == cfg.n
    && forall o, b :: 0 <= o < cfg.n && b in st.queues[o] ==> b.originator == o && cfg.Admits(b)
  }

  /** No dependency recorded in `b` is ahead of the clock. */
  predicate DependenciesMet(cfg: Config, clock: seq<nat>, b: Body)
    requires cfg.Valid() && |clock| == cfg.n && cfg.Admits(b)
  {
    forall i :: 0 <= i < |b.vectorClock| ==> b.vectorClock[i] <= clock[cfg.deps[b.originator][i]]
  }

  predicate CanDeliver(cfg: Config, clock: seq<nat>, b: Body)
    requires cfg.Valid() && |clock| == cfg.n && cfg.Admits(b)
  {
    b.seqNum <= clock[b.originator] && DependenciesMet(cfg, clock, b)
  }

  predicate Ready(cfg: Config, st: State, o: nat)
    requires WellFormed(cfg, st) && o < cfg.n
  {
    st.queues[o] != [] && CanDeliver(cfg, st.clock, st.queues[o][0])
  }

  ghost predicate Stuck(cfg: Config, st: State)
    requires WellFormed(cfg, st)
  {
    forall o :: 0 <= o < cfg.n ==> !Ready(cfg, st, o)
  }

  /** The first queue from `o` on whose least message can be delivered, or `n`. */
  function FirstReady(cfg: Config, st: State, o: nat): (r: nat)
    requires WellFormed(cfg, st) && o <= cfg.n
    ensures o <= r <= cfg.n
    ensures r < cfg.n ==> Ready(cfg, st, r)
    ensures forall i :: o <= i < r ==> !Ready(cfg, st, i)
    decreases cfg.n - o
  {
    if o == cfg.n || Ready(cfg, st, o) then o else FirstReady(cfg, st, o + 1)
  }

  /** Delivers the least message of queue `o`. */
  function Release(cfg: Config, st: State, o: nat): (r: State)
    requires WellFormed(cfg, st) && o < cfg.n && st.queues[o] != []
    ensures WellFormed(cfg, r)
  {
    State(st.queues[o := st.queues[o][1..]], st.clock[o := st.clock[o] + 1], st.log + [Event.Deliver(st.queues[o][0])])
  }

  function Waiting(queues: seq<seq<Body>>): nat {
    if queues == [] then 0 else |queues[0]| + Waiting(queues[1..])
  }

  lemma {:induction false} WaitingUpdate(queues: seq<seq<Body>>, o: nat, q: seq<Body>)
    requires o < |queues|
    ensures Waiting(queues[o := q]) == Waiting(queues) - |queues[o]| + |q|
  {
    if o == 0 {
      assert queues[o := q][1..] == queues[1..];
    } else {
      assert queues[o := q][1..] == queues[1..][o - 1 := q];
      WaitingUpdate(queues[1..], o - 1, q);
    }
  }

  /** The scan: release from the first queue that is ready, and start over, until none is. */
  function Drain(cfg: Config, st: State): (r: State)
    requires WellFormed(cfg, st)
    ensures WellFormed(cfg, r) && Stuck(cfg, r)
    decreases Waiting(st.queues)
  {
    var o := FirstReady(cfg, st, 0);
    if o == cfg.n then st
    else
      WaitingUpdate(st.queues, o, st.queues[o][1..]);
      Drain(cfg, Release(cfg, st, o))
  }

  /** Scanning from the front and restarting after a release is one step of `Drain` at a time. */
  lemma DrainStep(cfg: Config, st: State, o: nat)
    requires WellFormed(cfg, st) && o <= cfg.n
    requires forall i :: 0 <= i < o ==> !Ready(cfg, st, i)
    ensures o < cfg.n && Ready(cfg, st, o) ==> Drain(cfg, st) == Drain(cfg, Release(cfg, st, o))
    ensures o == cfg.n ==> Drain(cfg, st) == st
  {}

  function Arrive(cfg: Config, st: State, b: Body): (r: State)
    requires WellFormed(cfg, st) && cfg.Admits(b)
    ensures WellFormed(cfg, r)
  {
    PushContents(st.queues[b.originator], b);
    st.(queues := st.queues[b.originator := Push(st.queues[b.originator], b)])
  }

  lemma {:induction false} PushContents(queue: seq<Body>, b: Body)
    ensures |Push(queue, b)| == |queue| + 1
    ensures forall x :: x in Push(queue, b) <==> x == b || x in queue
  {
    if queue != [] && b.seqNum >= queue[0].seqNum {
      PushContents(queue[1..], b);
      assert queue == [queue[0]] + queue[1..];
    }
  }

  /** The reaction to a message from the layer below. */
  function Accept(cfg: Config, st: State, b: Body): (r: State)
    requires WellFormed(cfg, st) && cfg.Admits(b)
    ensures WellFormed(cfg, r) && Stuck(cfg, r)
  {
    Drain(cfg, Arrive(cfg, st, b))
  }

  // ------------------------------------------------------------------------------------------
  // What the state means: everything received is either delivered or waiting.
  // ------------------------------------------------------------------------------------------

  /** A set of messages with one content per key. */
  ghost predicate Consistent(cfg: Config, received: set<Body>) {
    && (forall b :: b in received ==> cfg.Admits(b))
    && forall a, b :: a in received && b in received && a.Id() == b.Id() ==> a == b
  }

  /** `b` may follow the log `prefix`: it is the next of its originator and nothing it depends on is
      missing. */
  ghost predicate MayFollow(cfg: Config, prefix: seq<Event>, b: Body) {
    && cfg.Admits(b)
    && b.seqNum == Delivered(prefix, b.originator)
    && forall i :: 0 <= i < |b.vectorClock| ==> b.vectorClock[i] <= Delivered(prefix, cfg.deps[b.originator][i])
  }

  /** Every delivery in the log is of a received message, in sequence, after its dependencies. */
  ghost predicate OrderedLog(cfg: Config, log: seq<Event>, received: set<Body>) {
    forall j :: 0 <= j < |log| && log[j].Deliver? ==> log[j].body in received && MayFollow(cfg, log[..j], log[j].body)
  }

  ghost predicate Ascending(queue: seq<Body>) {
    forall i, j :: 0 <= i < j < |queue| ==> queue[i].seqNum < queue[j].seqNum
  }

  /** The queue of originator `o` holds, in order, what was received of it from number `count` on. */
  ghost predicate HoldsWaiting(queue: seq<Body>, o: nat, count: nat, received: set<Body>) {
    && Ascending(queue)
    && (forall b :: b in queue ==> b in received && b.originator == o && b.seqNum >= count)
    && forall b :: b in received && b.originator == o && b.seqNum >= count ==> b in queue
  }

  /** The queues hold, in order, exactly what was received and not delivered; the clock counts the
      log; the log is ordered. */
  ghost predicate Represents(cfg: Config, st: State, received: set<Body>) {
    && WellFormed(cfg, st)
    && Consistent(cfg, received)
    && (forall o :: 0 <= o < cfg.n ==> HoldsWaiting(st.queues[o], o, st.clock[o], received))
    && (forall o :: 0 <= o < cfg.n ==> st.clock[o] == Delivered(st.log, o))
    && OrderedLog(cfg, st.log, received)
  }

  lemma {:induction false} PushAscending(queue: seq<Body>, b: Body)
    requires Ascending(queue)
    requires forall x :: x in queue ==> x.seqNum != b.seqNum
    ensures Ascending(Push(queue, b))
  {
    if queue != [] && b.seqNum >= queue[0].seqNum {
      PushAscending(queue[1..], b);
      PushContents(queue[1..], b);
      assert queue[0] in queue;
      forall x | x in Push(queue[1..], b)
        ensures queue[0].seqNum < x.seqNum
      {}
    }
  }

  lemma OrderedMonotone(cfg: Config, log: seq<Event>, received: set<Body>, more: set<Body>)
    requires OrderedLog(cfg, log, received) && received <= more
    ensures OrderedLog(cfg, log, more)
  {}

  lemma PushWaiting(queue: seq<Body>, o: nat, count: nat, received: set<Body>, b: Body)
    requires HoldsWaiting(queue, o, count, received)
    requires forall a :: a in received ==> a.Id() != b.Id()
    requires b.originator == o && b.seqNum >= count
    ensures HoldsWaiting(Push(queue, b), o, count, received + {b})
  {
    forall x | x in queue
      ensures x.seqNum != b.seqNum
    {
      assert x in received && x.Id() != b.Id();
    }
    PushContents(queue, b);
    PushAscending(queue, b);
  }

  /** A message with a new key joins the ones waiting. */
  lemma ArriveKeeps(cfg: Config, st: State, received: set<Body>, b: Body)
    requires Represents(cfg, st, received) && cfg.Admits(b)
    requires forall a :: a in received ==> a.Id() != b.Id()
    requires b.seqNum >= st.clock[b.originator]
    ensures Represents(cfg, Arrive(cfg, st, b), received + {b})
  {
    PushWaiting(st.queues[b.originator], b.originator, st.clock[b.originator], received, b);
    OrderedMonotone(cfg, st.log, received, received + {b});
  }

  /** What was delivered of an originator are the numbers below the count, one event each. */
  lemma {:induction false} DeliveredEvent(cfg: Config, log: seq<Event>, received: set<Body>, o: nat, s: nat)
    returns (i: nat)
    requires OrderedLog(cfg, log, received)
    requires s < Delivered(log, o)
    ensures i < |log| && log[i].Deliver? && log[i].body.originator == o && log[i].body.seqNum == s
    decreases |log|
  {
    i := |log| - 1;
    var front := log[..i];
    if s < Delivered(front, o) {
      OrderedPrefix(cfg, log, received, i);
      i := DeliveredEvent(cfg, front, received, o, s);
    }
  }

  lemma OrderedPrefix(cfg: Config, log: seq<Event>, received: set<Body>, k: nat)
    requires OrderedLog(cfg, log, received) && k <= |log|
    ensures OrderedLog(cfg, log[..k], received)
  {
    forall j | 0 <= j < k && log[..k][j].Deliver?
      ensures log[..k][j].body in received && MayFollow(cfg, log[..k][..j], log[..k][j].body)
    {
      assert log[..k][..j] == log[..j];
    }
  }

  lemma OrderedSnoc(cfg: Config, log: seq<Event>, received: set<Body>, e: Event)
    requires OrderedLog(cfg, log, received)
    requires e.Deliver? ==> e.body in received && MayFollow(cfg, log, e.body)
    ensures OrderedLog(cfg, log + [e], received)
  {
    forall j | 0 <= j < |log + [e]| && (log + [e])[j].Deliver?
      ensures (log + [e])[j].body in received && MayFollow(cfg, (log + [e])[..j], (log + [e])[j].body)
    {
      assert (log + [e])[..j] == log[..j];
      assert log[..|log|] == log;
    }
  }

  lemma PopWaiting(queue: seq<Body>, o: nat, count: nat, received: set<Body>)
    requires HoldsWaiting(queue, o, count, received) && queue != [] && queue[0].seqNum == count
    ensures HoldsWaiting(queue[1..], o, count + 1, received)
  {
    forall b | b in received && b.originator == o && b.seqNum >= count + 1
      ensures b in queue[1..]
    {
      assert b in queue && b != queue[0];
    }
  }

  lemma ReleaseKeeps(cfg: Config, st: State, received: set<Body>, o: nat)
    requires Represents(cfg, st, received) && o < cfg.n && Ready(cfg, st, o)
    ensures Represents(cfg, Release(cfg, st, o), received)
  {
    var b := st.queues[o][0];
    assert b in st.queues[o];
    PopWaiting(st.queues[o], o, st.clock[o], received);
    forall p | 0 <= p < cfg.n
      ensures Delivered(st.log + [Event.Deliver(b)], p) == Delivered(st.log, p) + if p == o then 1 else 0
    {
      DeliveredSnoc(st.log, Event.Deliver(b), p);
    }
    OrderedSnoc(cfg, st.log, received, Event.Deliver(b));
  }

  lemma {:induction false} DrainKeeps(cfg: Config, st: State, received: set<Body>)
    requires Represents(cfg, st, received)
    ensures Represents(cfg, Drain(cfg, st), received)
    ensures st.log <= Drain(cfg, st).log
    ensures forall e :: e in Drain(cfg, st).log[|st.log|..] ==> e.Deliver?
    decreases Waiting(st.queues)
  {
    var o := FirstReady(cfg, st, 0);
    if o < cfg.n {
      ReleaseKeeps(cfg, st, received, o);
      WaitingUpdate(st.queues, o, st.queues[o][1..]);
      DrainKeeps(cfg, Release(cfg, st, o), received);
    }
  }

  lemma NotYetDelivered(cfg: Config, st: State, received: set<Body>, b: Body)
    requires Represents(cfg, st, received) && cfg.Admits(b)
    requires forall a :: a in received ==> a.Id() != b.Id()
    ensures b.seqNum >= st.clock[b.originator]
  {
    if b.seqNum < st.clock[b.originator] {
      var i := DeliveredEvent(cfg, st.log, received, b.originator, b.seqNum);
      assert false;
    }
  }

  /** One delivery from below keeps the meaning of the state, whatever the state was. */
  lemma AcceptKeeps(cfg: Config, st: State, received: set<Body>, b: Body)
    requires Represents(cfg, st, received) && cfg.Admits(b)
    requires forall a :: a in received ==> a.Id() != b.Id()
    ensures Represents(cfg, Accept(cfg, st, b), received + {b})
    ensures Stuck(cfg, Accept(cfg, st, b))
    ensures st.log <= Accept(cfg, st, b).log
    ensures forall e :: e in Accept(cfg, st, b).log[|st.log|..] ==> e.Deliver?
  {
    NotYetDelivered(cfg, st, received, b);
    ArriveKeeps(cfg, st, received, b);
    DrainKeeps(cfg, Arrive(cfg, st, b), received + {b});
  }

  lemma InitRepresents(cfg: Config)
    requires cfg.Valid()
    ensures Represents(cfg, Init(cfg.n), {}) && Stuck(cfg, Init(cfg.n))
  {}
}
