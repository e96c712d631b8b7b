/** One process with its ends of all links, as a value, and what one iteration of its main loop does to
    it: it broadcasts its next message, or handles one frame from the network. */
module Stack {
  import opened Messages
  import opened Protocol
  import opened PerfectLink
  import CausalOrder
  import Dissemination
  import Link
  import Peers
  import Quorum
  import Ring
  import UniformReliableBroadcast

  /** `transmitted` is everything given to the network so far. */
  datatype State = State(proc: Proc, ends: seq<End>, transmitted: seq<Packet>)

  function Init(n: nat): State {
    State(Protocol.Init(n), seq(n, _ => UNUSED), [])
  }

  ghost predicate WellFormed(cfg: Config, id: nat, connections: seq<nat>, x: State) {
    && CausalOrder.WellFormed(cfg, x.proc.lcb) && id < cfg.n && |x.ends| == cfg.n
    && forall i :: 0 <= i < |connections| ==> connections[i] < cfg.n
  }

  /** A frame that another process of this configuration can have sent. */
  ghost predicate Handleable(cfg: Config, sender: nat, f: Link.Frame) {
    sender < cfg.n && (Link.IsSyn(f) ==> cfg.Admits(f.body))
  }

  /** `b` goes out on every link of the process. */
  function Send(id: nat, connections: seq<nat>, x: State, b: Body): (r: State)
    requires id < |x.ends| && forall i :: 0 <= i < |connections| ==> connections[i] < |x.ends|
    ensures |r.ends| == |x.ends|
  {
    x.(ends := UniformReliableBroadcast.Sent(id, connections, x.ends, b),
       transmitted := x.transmitted + UniformReliableBroadcast.Fanout(id, connections, x.ends, b))
  }

  function OnBroadcast(cfg: Config, id: nat, connections: seq<nat>, x: State): (r: State)
    requires WellFormed(cfg, id, connections, x)
    ensures WellFormed(cfg, id, connections, r) && r.proc.next == x.proc.next + 1
  {
    Send(id, connections, x, NextBody(cfg, id, x.proc)).(proc := Protocol.OnBroadcast(cfg, id, x.proc))
  }

  /** Sending down and then logging is the whole branch. */
  lemma BroadcastInSteps(cfg: Config, id: nat, connections: seq<nat>, x: State)
    requires WellFormed(cfg, id, connections, x)
    ensures var b := NextBody(cfg, id, x.proc);
      OnBroadcast(cfg, id, connections, x) == Logged(SentDown(cfg, id, connections, x, b), b)
  {}

  /** The process gives its own message to the layer below, which may deliver it on the spot. */
  ghost function SentDown(cfg: Config, id: nat, connections: seq<nat>, x: State, b: Body): State
    requires WellFormed(cfg, id, connections, x) && cfg.Admits(b)
  {
    var reaction := Quorum.Start(cfg.n, id, x.proc.urb, b.Id());
    Send(id, connections, x, b).(
      proc := Proc(reaction.st, Upcall(cfg, x.proc.lcb, reaction.up, b), x.proc.next))
  }

  /** The broadcast of `b` is logged and counted. */
  function Logged(x: State, b: Body): State {
    var p := x.proc;
    x.(proc := p.(lcb := p.lcb.(log := p.lcb.log + [Event.Broadcast(b)]), next := p.next + 1))
  }

  predicate IsFirstCopy(x: State, sender: nat, f: Link.Frame)
    requires sender < |x.ends|
  {
    Link.IsSyn(f) && Link.SeqNum(f) !in x.ends[sender].seen
  }

  /** What the link passes on of a frame, and what comes of it before the frame is acknowledged. */
  function OnMessage(cfg: Config, id: nat, connections: seq<nat>, x: State, sender: nat, f: Link.Frame): (r: State)
    requires WellFormed(cfg, id, connections, x) && Handleable(cfg, sender, f)
    ensures WellFormed(cfg, id, connections, r) && r.proc.next == x.proc.next
  {
    var noted := x.(ends := Peers.Noted(x.ends, sender, f));
    if !IsFirstCopy(x, sender, f) then noted
    else
      var sent := if Relays(x.proc, f.body.Id()) then Send(id, connections, noted, f.body) else noted;
      sent.(proc := OnReceive(cfg, id, x.proc, sender, f.body))
  }

  /** An acknowledgement goes to the worker. A message is handed up if it is a first copy, and
      acknowledged in any case. */
  function OnFrame(cfg: Config, id: nat, connections: seq<nat>, x: State, sender: nat, f: Link.Frame): (r: State)
    requires WellFormed(cfg, id, connections, x) && Handleable(cfg, sender, f)
    ensures WellFormed(cfg, id, connections, r) && r.proc.next == x.proc.next
  {
    var after := OnMessage(cfg, id, connections, x, sender, f);
    if Link.IsSyn(f) then after.(transmitted := after.transmitted + [Acknowledgement(id, sender, f)]) else after
  }

  /** Whatever was transmitted stays, and a message is answered at last: its number counts as seen, and the
      acknowledgement goes back to its sender. */
  lemma MessageIsAnswered(cfg: Config, id: nat, connections: seq<nat>, x: State, sender: nat, f: Link.Frame)
    requires WellFormed(cfg, id, connections, x) && Handleable(cfg, sender, f)
    ensures var r := OnFrame(cfg, id, connections, x, sender, f);
      && x.transmitted <= r.transmitted
      && (Link.IsSyn(f) ==>
            && Link.SeqNum(f) in r.ends[sender].seen && r.transmitted != []
            && r.transmitted[|r.transmitted| - 1] == PacketTo(id, sender, Link.SetAck(f)))
  {}

  function Acknowledgement(id: nat, sender: nat, f: Link.Frame): Packet {
    PacketTo(id, sender, Link.SetAck(f))
  }

  /** What is sent is what a step of the system sends: one packet on every link of the process,
      each under the next number of that link, and nothing else. */
  lemma FanoutUsesEveryLinkOnce(cfg: Config, id: nat, ends: seq<End>, b: Body)
    requires Dissemination.OnRing(cfg) && id < cfg.n && |ends| == cfg.n
    ensures var packets := UniformReliableBroadcast.Fanout(id, Ring.Connections(id, cfg.n), ends, b);
      && (forall q: nat :: (id, q) in cfg.links <==>
            q < cfg.n && Packet(q, Message(ends[q].sender.next, id, b)) in packets)
      && (forall x :: x in packets ==> (id, x.receiver) in cfg.links && x.msg.body == b)
      && forall i, j :: 0 <= i < j < |packets| ==> packets[i].receiver != packets[j].receiver
  {
    var list := Ring.Connections(id, cfg.n);
    Ring.Degree(id, cfg.n);
    FanoutContents(id, list, ends, b);
    forall q: nat
      ensures (id, q) in cfg.links <==> q in list
    {
      assert Ring.Adjacent(id, q, cfg.n) <==> q in list;
    }
  }

  lemma FanoutContents(id: nat, list: seq<nat>, ends: seq<End>, b: Body)
    requires forall i :: 0 <= i < |list| ==> list[i] < |ends|
    ensures var packets := UniformReliableBroadcast.Fanout(id, list, ends, b);
      && |packets| == |list|
      && (forall i :: 0 <= i < |list| ==> packets[i].receiver == list[i] && packets[i].msg.body == b)
      && forall q: nat :: q in list <==> q < |ends| && Packet(q, Message(ends[q].sender.next, id, b)) in packets
  {
    var packets := UniformReliableBroadcast.Fanout(id, list, ends, b);
    forall q: nat | q in list
      ensures Packet(q, Message(ends[q].sender.next, id, b)) in packets
    {
      var i :| 0 <= i < |list| && list[i] == q;
      assert packets[i] == Packet(q, Message(ends[q].sender.next, id, b));
    }
  }

  // ------------------------------------------------------------------------------------------
  // The workers
  // ------------------------------------------------------------------------------------------

  /** The frame as it goes to process `q`. */
  function PacketTo(id: nat, q: nat, f: Link.Frame): Packet {
    Packet(q, Message(f.number, id, f.body))
  }

  function WithSender(x: State, q: nat, sender: Link.Sender): State
    requires q < |x.ends|
  {
    x.(ends := x.ends[q := x.ends[q].(sender := sender)])
  }

  /** The worker towards `q` takes an item from its queue. */
  function OnTake(x: State, q: nat): State
    requires q < |x.ends| && x.ends[q].sender.incoming != []
  {
    WithSender(x, q, Link.Take(x.ends[q].sender))
  }

  /** The timer of a scheduled message expires: it is dropped if acknowledged, otherwise sent again. */
  function OnTimeout(id: nat, x: State, q: nat, f: Link.Frame): State
    requires q < |x.ends|
  {
    var sender := x.ends[q].sender;
    var worked := WithSender(x, q, Link.Expire(sender, f));
    if Link.SeqNum(f) in sender.acknowledged then worked
    else worked.(transmitted := x.transmitted + [PacketTo(id, q, f)])
  }

  /** What the worker towards `q` may do, depending on its timers. */
  ghost predicate Works(id: nat, x: State, q: nat, x': State)
    requires q < |x.ends|
  {
    || (x.ends[q].sender.incoming != [] && x' == OnTake(x, q))
    || (exists f :: f in x.ends[q].sender.scheduled && x' == OnTimeout(id, x, q, f))
  }

  /** One iteration of the worker towards `q` that started at `now` with these entries. */
  function OnWork(id: nat, x: State, q: nat, heap: seq<Entry>, now: nat): State
    requires q < |x.ends|
  {
    if (heap == [] || heap[0].timer.retryAt > now) && x.ends[q].sender.incoming != [] then OnTake(x, q)
    else if heap == [] then x
    else OnTimeout(id, x, q, heap[0].msg)
  }

  /** One iteration, with what it transmits, is this; and unless queue and heap are empty, it is a step. */
  lemma WorkedIsWorks(id: nat, x: State, q: nat, plan: Timetable, now: nat, later: nat, end: End,
                      times: map<nat, seq<nat>>, resend: Option<Link.Frame>)
    requires q < |x.ends| && Peers.Worked(x.ends[q], plan, now, later, end, times, resend)
    ensures var x' := State(x.proc, x.ends[q := end], x.transmitted + match resend
                        case None => []
                        case Some(f) => [PacketTo(id, q, f)]);
      && x' == OnWork(id, x, q, plan.heap, now)
      && (x.ends[q].sender.incoming != [] || x.ends[q].sender.scheduled != multiset{} ==> Works(id, x, q, x'))
  {
    assert x.ends[q := x.ends[q]] == x.ends && x.transmitted + [] == x.transmitted;
  }
}
