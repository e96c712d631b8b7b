/** The top layer as the object that it is: heaps and clock are updated in place by a scan that
    restarts after every delivery. `events` stands for the observer above, the application log. */
module LocalizedCausalBroadcast {
  import opened Messages
  import CausalOrder

  class LocalizedCausal {
    const cfg: Config
    const id: nat
    var pending: seq<seq<Body>>
    var currentClock: seq<nat>
    var events: seq<Event>

    ghost function State(): CausalOrder.State
      reads this
    {
      CausalOrder.State(pending, currentClock, events)
    }

    ghost predicate Valid()
      reads this
    {
      id < cfg.n && CausalOrder.WellFormed(cfg, State())
    }

    constructor (cfg: Config, id: nat)
      requires cfg.Valid() && id < cfg.n
      ensures Valid() && this.cfg == cfg && this.id == id
      ensures State() == CausalOrder.Init(cfg.n)
    {
      this.cfg, this.id := cfg, id;
      pending := seq(cfg.n, _ => []);
      currentClock := seq(cfg.n, _ => 0);
      events := [];
    }

    /** The vector clock attached to the next broadcast: one entry per declared dependency. */
    method AttachClock() returns (vectorClock: seq<nat>)
      requires Valid()
      ensures |vectorClock| == |cfg.deps[id]|
      ensures forall i :: 0 <= i < |vectorClock| ==> vectorClock[i] == currentClock[cfg.deps[id][i]]
    {
      vectorClock := [];
      var myDeps := cfg.deps[id];
      for i := 0 to |myDeps|
        invariant |vectorClock| == i
        invariant forall j :: 0 <= j < i ==> vectorClock[j] == currentClock[myDeps[j]]
      {
        vectorClock := vectorClock + [currentClock[myDeps[i]]];
      }
    }

    method CanDeliver(b: Body) returns (ok: bool)
      requires Valid() && cfg.Admits(b)
      ensures ok <==> CausalOrder.CanDeliver(cfg, currentClock, b)
    {
      if b.seqNum > currentClock[b.originator] {
        return false;
      }
      var depends := cfg.deps[b.originator];
      for i := 0 to |b.vectorClock|
        invariant forall j :: 0 <= j < i ==> b.vectorClock[j] <= currentClock[depends[j]]
      {
        var processId := depends[i];
        if b.vectorClock[i] > currentClock[processId] {
          return false;
        }
      }
      return true;
    }

    method Release(o: nat)
      requires Valid() && o < |pending| && pending[o] != []
      modifies this
      ensures Valid() && State() == CausalOrder.Release(cfg, old(State()), o)
    {
      var msg := pending[o][0];
      assert msg in pending[o];
      currentClock := currentClock[msg.originator := currentClock[msg.originator] + 1];
      events := events + [Event.Deliver(msg)];
      pending := pending[o := pending[o][1..]];
    }

    /** Files the message and scans until nothing more can be delivered. */
    method Deliver(b: Body)
      requires Valid() && cfg.Admits(b)
      modifies this
      ensures Valid() && State() == CausalOrder.Accept(cfg, old(State()), b)
    {
      pending := pending[b.originator := CausalOrder.Push(pending[b.originator], b)];
      ghost var goal := CausalOrder.Accept(cfg, old(State()), b);
      assert State() == CausalOrder.Arrive(cfg, old(State()), b);
      var it := 0;
      while it < |pending|
        invariant Valid() && it <= |pending|
        invariant CausalOrder.Drain(cfg, State()) == goal
        invariant forall o :: 0 <= o < it ==> !CausalOrder.Ready(cfg, State(), o)
        decreases CausalOrder.Waiting(pending), |pending| - it
      {
        var ready := false;
        if pending[it] != [] {
          assert pending[it][0] in pending[it];
          ready := CanDeliver(pending[it][0]);
        }
        if ready {
          CausalOrder.DrainStep(cfg, State(), it);
          CausalOrder.WaitingUpdate(pending, it, pending[it][1..]);
          Release(it);
          it := 0;
        } else {
          it := it + 1;
        }
      }
      CausalOrder.DrainStep(cfg, State(), it);
    }
  }
}
