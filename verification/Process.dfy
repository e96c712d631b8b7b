/** The main thread of one process: the whole stack, driven by one loop that either broadcasts its next
    message or handles one frame that arrived. */
module Process {
  import opened Messages
  import Link
  import LocalizedCausalBroadcast
  import MainLoop
  import Peers
  import PerfectLink
  import Protocol
  import Ring
  import Stack
  import UniformReliableBroadcast

  class Process {
    const cfg: Config
    const id: nat
    const causal: LocalizedCausalBroadcast.LocalizedCausal
    const reliable: UniformReliableBroadcast.UniformReliable
    var nextMsg: nat

    ghost predicate Valid()
      reads this, reliable, reliable.Repr
    {
      && reliable.observer == causal && reliable.Valid() && this !in reliable.Repr
      && causal.cfg == cfg && causal.id == reliable.id == id
    }

    ghost function Proc(): Protocol.Proc
      reads this, causal, reliable, reliable.pending, reliable.delivered
    {
      Protocol.Proc(reliable.State(), causal.State(), nextMsg)
    }

    ghost function State(): Stack.State
      reads this, causal, reliable, reliable.pending, reliable.delivered, reliable.peers
    {
      Stack.State(Proc(), reliable.peers.Ends, reliable.transmitted)
    }

    constructor (cfg: Config, id: nat)
      requires cfg.Valid() && id < cfg.n
      ensures Valid() && this.cfg == cfg && this.id == id
      ensures State() == Stack.Init(cfg.n) && reliable.connections == Ring.Connections(id, cfg.n)
    {
      this.cfg, this.id, nextMsg := cfg, id, 0;
      var top := new LocalizedCausalBroadcast.LocalizedCausal(cfg, id);
      causal := top;
      reliable := new UniformReliableBroadcast.UniformReliable(top);
    }

    /** Broadcasts the next message, then logs it. */
    method Broadcast()
      requires Valid()
      modifies this, reliable.Repr
      ensures Valid() && fresh(reliable.Repr - old(reliable.Repr))
      ensures State() == Stack.OnBroadcast(cfg, id, reliable.connections, old(State()))
    {
      Stack.BroadcastInSteps(cfg, id, reliable.connections, State());
      var b := NextBody();
      SendAndLog(b);
    }

    method SendAndLog(b: Body)
      requires Valid() && cfg.Admits(b)
      modifies this, reliable.Repr
      ensures Valid() && fresh(reliable.Repr - old(reliable.Repr))
      ensures State() == Stack.Logged(Stack.SentDown(cfg, id, reliable.connections, old(State()), b), b)
    {
      SendDown(b);
      LogBroadcast(b);
    }

    method NextBody() returns (b: Body)
      requires Valid()
      ensures b == Protocol.NextBody(cfg, id, Proc())
    {
      var vectorClock := causal.AttachClock();
      assert vectorClock == Protocol.VectorClock(cfg, id, causal.currentClock);
      b := Body(id, nextMsg, vectorClock);
    }

    method SendDown(b: Body)
      requires Valid() && cfg.Admits(b)
      modifies reliable.Repr
      ensures Valid() && fresh(reliable.Repr - old(reliable.Repr))
      ensures State() == Stack.SentDown(cfg, id, reliable.connections, old(State()), b)
    {
      reliable.Send(b);
    }

    method LogBroadcast(b: Body)
      requires Valid()
      modifies this`nextMsg, causal`events
      ensures Valid() && State() == Stack.Logged(old(State()), b)
    {
      causal.events := causal.events + [Event.Broadcast(b)];
      nextMsg := nextMsg + 1;
    }

    /** A frame from the network: the link hands it up if it is a first copy, and acknowledges it. */
    method Receive(sender: nat, f: Link.Frame)
      requires Valid() && Stack.Handleable(cfg, sender, f)
      modifies this, reliable.Repr
      ensures Valid() && fresh(reliable.Repr - old(reliable.Repr))
      ensures State() == Stack.OnFrame(cfg, id, reliable.connections, old(State()), sender, f)
    {
      var reply := Handle(sender, f);
      if reply.Some? {
        Reply(sender, reply.value);
      }
    }

    method Reply(sender: nat, ack: Link.Frame)
      requires Valid()
      modifies reliable`transmitted
      ensures Valid()
      ensures State() == old(State()).(transmitted := old(State()).transmitted +
                                                      [Packet(sender, Message(ack.number, id, ack.body))])
    {
      reliable.Transmit(sender, ack);
    }

    method Handle(sender: nat, f: Link.Frame) returns (reply: PerfectLink.Option<Link.Frame>)
      requires Valid() && Stack.Handleable(cfg, sender, f)
      modifies reliable.Repr
      ensures Valid() && fresh(reliable.Repr - old(reliable.Repr))
      ensures State() == Stack.OnMessage(cfg, id, reliable.connections, old(State()), sender, f)
      ensures reply == if Link.IsSyn(f) then PerfectLink.Some(Link.SetAck(f)) else PerfectLink.None
    {
      var handUp;
      handUp, reply := Note(sender, f);
      if handUp {
        HandUp(sender, f);
      }
    }

    method Note(sender: nat, f: Link.Frame) returns (handUp: bool, reply: PerfectLink.Option<Link.Frame>)
      requires Valid() && sender < cfg.n
      modifies reliable`Repr, reliable.peers.Repr
      ensures Valid() && fresh(reliable.Repr - old(reliable.Repr))
      ensures State() == old(State()).(ends := Peers.Noted(old(State()).ends, sender, f))
      ensures handUp == Stack.IsFirstCopy(old(State()), sender, f)
      ensures reply == if Link.IsSyn(f) then PerfectLink.Some(Link.SetAck(f)) else PerfectLink.None
    {
      handUp, reply := reliable.LinkDeliver(sender, f);
    }

    method HandUp(sender: nat, f: Link.Frame)
      requires Valid() && sender < cfg.n && cfg.Admits(f.body)
      modifies reliable.Repr
      ensures Valid() && fresh(reliable.Repr - old(reliable.Repr))
      ensures var sent := if Protocol.Relays(old(Proc()), f.body.Id())
                          then Stack.Send(id, reliable.connections, old(State()), f.body) else old(State());
                State() == sent.(proc := Protocol.OnReceive(cfg, id, old(Proc()), sender, f.body))
    {
      Protocol.RelaysAsReaction(cfg, id, Proc(), sender, f.body.Id());
      reliable.Deliver(Message(Link.SeqNum(f), sender, f.body));
    }

    /** One iteration of the worker towards `q`, which runs beside the loop. */
    method Work(q: nat, now: nat, later: nat)
      requires Valid() && q < cfg.n && now <= later && reliable.peers.peers[q].MayAct(later)
      modifies reliable`transmitted, reliable.peers.Repr
      ensures Valid()
      ensures State() == Stack.OnWork(id, old(State()), q, old(reliable.peers.peers[q].Plan()).heap, now)
      ensures reliable.peers.peers[q].Plan().times == PerfectLink.TimesAfter(
                old(State()).ends[q].sender, old(reliable.peers.peers[q].Plan()), now, later)
      ensures old(State()).ends[q].sender.incoming != [] || old(State()).ends[q].sender.scheduled != multiset{} ==>
                Stack.Works(id, old(State()), q, State())
    {
      ghost var before, peer := State(), reliable.peers.peers[q];
      ghost var plan := peer.Plan();
      ghost var resend := reliable.Work(q, now, later);
      Stack.WorkedIsWorks(id, before, q, plan, now, later, reliable.peers.Ends[q], peer.Plan().times, resend);
    }

    /** One iteration of the main loop. */
    method Iterate(numMessages: nat, subsequentRecvs: nat, arrival: MainLoop.Arrival) returns (quota: nat)
      requires Valid() && MainLoop.Handleable(cfg, arrival)
      modifies this, reliable.Repr
      ensures Valid() && fresh(reliable.Repr - old(reliable.Repr))
      ensures MainLoop.Progress(State(), quota)
           == MainLoop.Iterate(cfg, id, reliable.connections, numMessages,
                               MainLoop.Progress(old(State()), subsequentRecvs), arrival)
    {
      if subsequentRecvs > 0 && arrival != MainLoop.Nothing {
        Receive(arrival.sender, arrival.frame);
        return subsequentRecvs - 1;
      }
      Broadcast();
      quota := numMessages;
    }

    /** The loop until all messages are broadcast. The next item of the queue of arrivals is whatever
        the network and the receiving thread have put there. */
    method BroadcastAll(numMessages: nat, arrivals: nat -> MainLoop.Arrival) returns (iterations: nat)
      requires Valid() && forall j :: MainLoop.Handleable(cfg, arrivals(j))
      modifies this, reliable.Repr
      ensures Valid()
      ensures MainLoop.Outcome(State(), iterations)
           == MainLoop.Loop(cfg, id, reliable.connections, numMessages, arrivals, 0,
                            MainLoop.Progress(old(State()), numMessages))
    {
      ghost var goal := MainLoop.Loop(cfg, id, reliable.connections, numMessages, arrivals, 0,
                                      MainLoop.Progress(State(), numMessages));
      iterations := 0;
      var subsequentRecvs := numMessages;
      while nextMsg < numMessages
        invariant Valid() && fresh(reliable.Repr - old(reliable.Repr))
        invariant goal == MainLoop.Loop(cfg, id, reliable.connections, numMessages, arrivals, iterations,
                                        MainLoop.Progress(State(), subsequentRecvs))
        decreases numMessages - nextMsg, subsequentRecvs
      {
        subsequentRecvs := Iterate(numMessages, subsequentRecvs, arrivals(iterations));
        iterations := iterations + 1;
      }
    }
  }
}
