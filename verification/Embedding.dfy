/** A process as a part of the system: what its object does to its layers, to its ends of the links and to
    the network is what the steps of the system do. */
module Embedding {
  import opened Messages
  import opened PerfectLink
  import opened Stack
  import Continuation
  import Dissemination
  import Link
  import LossySystem
  import Peers
  import Protocol
  import Ring
  import System
  import Transmission
  import UniformReliableBroadcast

  /** The end of process `id` towards `q`: the queue and heap, the numbers seen, and everything that was
      ever given to the network, messages and acknowledgements. */
  ghost predicate EndOf(to: Link.State, back: Link.State, id: nat, q: nat, x: State)
    requires q < |x.ends|
  {
    && x.ends[q] == End(to.sender, back.delivered)
    && (forall f :: f in to.wire <==> Link.IsSyn(f) && PacketTo(id, q, f) in x.transmitted)
    && (forall f :: f in back.acks <==> !Link.IsSyn(f) && PacketTo(id, q, f) in x.transmitted)
  }

  ghost predicate PartOf(cfg: Config, s: LossySystem.State, id: nat, x: State)
    requires LossySystem.Shape(cfg, s) && id < cfg.n
  {
    && x.proc == s.procs[id] && |x.ends| == cfg.n
    && forall q :: 0 <= q < cfg.n && q != id ==> EndOf(s.links[id][q], s.links[q][id], id, q, x)
  }

  lemma StartsAsPart(cfg: Config, s: LossySystem.State, id: nat)
    requires LossySystem.Start(cfg, s) && id < cfg.n
    ensures PartOf(cfg, s, id, Init(cfg.n))
  {}

  /** Nothing that the process holds or has transmitted changed at this end. */
  lemma SameEnd(to: Link.State, back: Link.State, to': Link.State, back': Link.State, id: nat, q: nat, x: State)
    requires q < |x.ends| && EndOf(to, back, id, q, x)
    requires to'.sender == to.sender && to'.wire == to.wire
    requires back'.delivered == back.delivered && back'.acks == back.acks
    ensures EndOf(to', back', id, q, x)
  {}

  lemma FanoutPackets(id: nat, list: seq<nat>, ends: seq<End>, b: Body, q: nat, f: Link.Frame)
    requires q < |ends| && forall i :: 0 <= i < |list| ==> list[i] < |ends|
    ensures PacketTo(id, q, f) in UniformReliableBroadcast.Fanout(id, list, ends, b)
       <==> q in list && f == Link.Frame(ends[q].sender.next, b)
  {
    FanoutContents(id, list, ends, b);
    var packets := UniformReliableBroadcast.Fanout(id, list, ends, b);
    if PacketTo(id, q, f) in packets {
      var i :| 0 <= i < |packets| && packets[i] == PacketTo(id, q, f);
      assert packets[i] == Packet(list[i], Message(ends[list[i]].sender.next, id, b));
    }
  }

  /** Sending on all links, seen from one end. */
  lemma SendEnd(id: nat, list: seq<nat>, x: State, b: Body, q: nat, to: Link.State, to': Link.State, back: Link.State,
                back': Link.State)
    requires id < |x.ends| && q < |x.ends| && q != id && forall i :: 0 <= i < |list| ==> list[i] < |x.ends|
    requires EndOf(to, back, id, q, x)
    requires if q in list then Link.IsSend(to, to', b) else to' == to
    requires back'.delivered == back.delivered && back'.acks == back.acks
    ensures EndOf(to', back', id, q, Send(id, list, x, b))
  {
    forall f
      ensures PacketTo(id, q, f) in UniformReliableBroadcast.Fanout(id, list, x.ends, b)
         <==> q in list && f == Link.Frame(to.sender.next, b)
    {
      FanoutPackets(id, list, x.ends, b, q, f);
    }
  }

  lemma RingList(cfg: Config, id: nat, q: nat)
    requires Dissemination.OnRing(cfg) && id < cfg.n
    ensures (id, q) in cfg.links <==> q in Ring.Connections(id, cfg.n)
  {}

  lemma FanoutEnds(cfg: Config, links: seq<seq<Link.State>>, links': seq<seq<Link.State>>, id: nat, x: State, b: Body,
                   q: nat)
    requires |links| == |links'| == |x.ends| == cfg.n && Dissemination.OnRing(cfg) && id < cfg.n && q < cfg.n && q != id
    requires forall a :: 0 <= a < cfg.n ==> |links[a]| == |links'[a]| == cfg.n
    requires LossySystem.Fanout(cfg, links, links', id, b)
    requires EndOf(links[id][q], links[q][id], id, q, x)
    ensures EndOf(links'[id][q], links'[q][id], id, q, Send(id, Ring.Connections(id, cfg.n), x, b))
  {
    RingList(cfg, id, q);
    SendEnd(id, Ring.Connections(id, cfg.n), x, b, q, links[id][q], links'[id][q], links[q][id], links'[q][id]);
  }

  /** Broadcasting does to the process what the broadcast step of the system does. */
  lemma BroadcastIsPart(cfg: Config, s: LossySystem.State, s': LossySystem.State, id: nat, x: State)
    requires LossySystem.Shape(cfg, s) && LossySystem.Shape(cfg, s') && Dissemination.OnRing(cfg) && id < cfg.n
    requires PartOf(cfg, s, id, x) && LossySystem.BroadcastStep(cfg, s, s', id)
    requires WellFormed(cfg, id, Ring.Connections(id, cfg.n), x)
    ensures PartOf(cfg, s', id, OnBroadcast(cfg, id, Ring.Connections(id, cfg.n), x))
  {
    var r := OnBroadcast(cfg, id, Ring.Connections(id, cfg.n), x);
    var b := Protocol.NextBody(cfg, id, x.proc);
    forall q | 0 <= q < cfg.n && q != id
      ensures EndOf(s'.links[id][q], s'.links[q][id], id, q, r)
    {
      FanoutEnds(cfg, s.links, s'.links, id, x, b, q);
    }
  }

  /** The acknowledgement of `f` goes to `p`. */
  lemma AnswerEnd(id: nat, p: nat, f: Link.Frame, x: State, q: nat, to: Link.State, back: Link.State)
    requires q < |x.ends| && EndOf(to, back, id, q, x) && Link.IsSyn(f)
    ensures EndOf(to, if q == p then back.(acks := back.acks + {Link.SetAck(f)}) else back, id, q,
                  x.(transmitted := x.transmitted + [Acknowledgement(id, p, f)]))
  {
    Link.AckEncoding(f);
    forall g
      ensures PacketTo(id, q, g) == Acknowledgement(id, p, f) <==> q == p && g == Link.SetAck(f)
    {}
  }

  /** The number of `f` is noted at the end towards `p`. */
  lemma NotedEnd(id: nat, p: nat, f: Link.Frame, x: State, q: nat, to: Link.State, back: Link.State)
    requires p < |x.ends| && q < |x.ends| && EndOf(to, back, id, q, x) && Link.IsSyn(f)
    ensures EndOf(to, if q == p then back.(delivered := back.delivered + {Link.SeqNum(f)}) else back, id, q,
                  x.(ends := Peers.Noted(x.ends, p, f)))
  {}

  /** The links after `f` from `p` was noted, before it is acknowledged. */
  ghost function NotedLinks(links: seq<seq<Link.State>>, p: nat, id: nat, f: Link.Frame): seq<seq<Link.State>>
    requires p < |links| && id < |links[p]|
  {
    links[p := links[p][id := links[p][id].(delivered := links[p][id].delivered + {Link.SeqNum(f)})]]
  }

  /** A first copy that is relayed, seen from one end. */
  lemma RelayEnd(cfg: Config, links: seq<seq<Link.State>>, links': seq<seq<Link.State>>, p: nat, id: nat,
                 f: Link.Frame, x: State, q: nat)
    requires |links| == |links'| == |x.ends| == cfg.n && Dissemination.OnRing(cfg)
    requires id < cfg.n && q < cfg.n && q != id && p < cfg.n && p != id && Link.IsSyn(f)
    requires forall a :: 0 <= a < cfg.n ==> |links[a]| == |links'[a]| == cfg.n
    requires LossySystem.Fanout(cfg, LossySystem.Arrived(links, p, id, f), links', id, f.body)
    requires EndOf(links[id][q], links[q][id], id, q, x)
    ensures var noted := x.(ends := Peers.Noted(x.ends, p, f));
      var sent := Send(id, Ring.Connections(id, cfg.n), noted, f.body);
      EndOf(links'[id][q], links'[q][id], id, q,
            sent.(transmitted := sent.transmitted + [Acknowledgement(id, p, f)]))
  {
    var connections := Ring.Connections(id, cfg.n);
    var arrived := LossySystem.Arrived(links, p, id, f);
    var noted := x.(ends := Peers.Noted(x.ends, p, f));
    var back := if q == p then links[q][id].(delivered := links[q][id].delivered + {Link.SeqNum(f)}) else links[q][id];
    NotedEnd(id, p, f, x, q, links[id][q], links[q][id]);
    RingList(cfg, id, q);
    assert arrived[id][q] == links[id][q];
    SendEnd(id, connections, noted, f.body, q, links[id][q], links'[id][q], back, back);
    AnswerEnd(id, p, f, Send(id, connections, noted, f.body), q, links'[id][q], back);
    assert links'[q][id] == arrived[q][id];
  }

  /** A copy that is not relayed, seen from one end. */
  lemma ArrivedEnd(links: seq<seq<Link.State>>, p: nat, id: nat, f: Link.Frame, x: State, q: nat)
    requires p < |links| == |x.ends| && id < |links| && q < |links| && q != id && p != id && Link.IsSyn(f)
    requires forall a :: 0 <= a < |links| ==> |links[a]| == |links|
    requires EndOf(links[id][q], links[q][id], id, q, x)
    ensures var links' := LossySystem.Arrived(links, p, id, f);
      var noted := x.(ends := Peers.Noted(x.ends, p, f));
      EndOf(links'[id][q], links'[q][id], id, q,
            noted.(transmitted := noted.transmitted + [Acknowledgement(id, p, f)]))
  {
    var noted := x.(ends := Peers.Noted(x.ends, p, f));
    var back := if q == p then links[q][id].(delivered := links[q][id].delivered + {Link.SeqNum(f)}) else links[q][id];
    NotedEnd(id, p, f, x, q, links[id][q], links[q][id]);
    AnswerEnd(id, p, f, noted, q, links[id][q], back);
  }

  lemma FirstCopyKnown(cfg: Config, s: LossySystem.State, p: nat, id: nat, f: Link.Frame, x: State)
    requires LossySystem.Shape(cfg, s) && id < cfg.n && p < cfg.n && p != id && Link.IsSyn(f) && PartOf(cfg, s, id, x)
    ensures IsFirstCopy(x, p, f) == (Link.SeqNum(f) !in s.links[p][id].delivered)
  {
    assert EndOf(s.links[id][p], s.links[p][id], id, p, x);
  }

  lemma ArrivalEnd(cfg: Config, s: LossySystem.State, s': LossySystem.State, p: nat, id: nat, f: Link.Frame, x: State,
                   q: nat)
    requires LossySystem.Shape(cfg, s) && LossySystem.Shape(cfg, s') && Dissemination.OnRing(cfg)
    requires id < cfg.n && p != id && LossySystem.ArrivalStep(cfg, s, s', p, id, f) && Handleable(cfg, p, f)
    requires PartOf(cfg, s, id, x) && WellFormed(cfg, id, Ring.Connections(id, cfg.n), x) && q < cfg.n && q != id
    ensures EndOf(s'.links[id][q], s'.links[q][id], id, q, OnFrame(cfg, id, Ring.Connections(id, cfg.n), x, p, f))
  {
    FirstCopyKnown(cfg, s, p, id, f, x);
    assert EndOf(s.links[id][q], s.links[q][id], id, q, x);
    if IsFirstCopy(x, p, f) && Protocol.Relays(x.proc, f.body.Id()) {
      RelayEnd(cfg, s.links, s'.links, p, id, f, x, q);
    } else {
      ArrivedEnd(s.links, p, id, f, x, q);
    }
  }

  /** Handling a frame does to the process what its arrival in the system does. */
  lemma ArrivalIsPart(cfg: Config, s: LossySystem.State, s': LossySystem.State, p: nat, id: nat, f: Link.Frame,
                      x: State)
    requires LossySystem.Shape(cfg, s) && LossySystem.Shape(cfg, s') && Dissemination.OnRing(cfg)
    requires id < cfg.n && p != id && LossySystem.ArrivalStep(cfg, s, s', p, id, f)
    requires PartOf(cfg, s, id, x) && WellFormed(cfg, id, Ring.Connections(id, cfg.n), x)
    ensures Handleable(cfg, p, f) && PartOf(cfg, s', id, OnFrame(cfg, id, Ring.Connections(id, cfg.n), x, p, f))
  {
    assert f in s.links[p][id].wire;
    FirstCopyKnown(cfg, s, p, id, f, x);
    forall q | 0 <= q < cfg.n && q != id
      ensures EndOf(s'.links[id][q], s'.links[q][id], id, q, OnFrame(cfg, id, Ring.Connections(id, cfg.n), x, p, f))
    {
      ArrivalEnd(cfg, s, s', p, id, f, x, q);
    }
  }

  /** The rest of the process is as it was. */
  ghost predicate OnlyEnd(id: nat, q: nat, x: State, x': State) {
    && x'.proc == x.proc && |x'.ends| == |x.ends|
    && (forall r :: 0 <= r < |x.ends| && r != q ==> x'.ends[r] == x.ends[r])
    && forall r, f :: r != q ==> (PacketTo(id, r, f) in x'.transmitted <==> PacketTo(id, r, f) in x.transmitted)
  }

  /** One link of the process changes, and the process with it. */
  lemma OneEndIsPart(cfg: Config, s: LossySystem.State, s': LossySystem.State, id: nat, q: nat, x: State, x': State)
    requires LossySystem.Shape(cfg, s) && LossySystem.Shape(cfg, s') && id < cfg.n && q < cfg.n && q != id
    requires PartOf(cfg, s, id, x) && s'.procs == s.procs
    requires s'.links == s.links[id := s.links[id][q := s'.links[id][q]]]
    requires OnlyEnd(id, q, x, x') && q < |x'.ends| && EndOf(s'.links[id][q], s.links[q][id], id, q, x')
    ensures PartOf(cfg, s', id, x')
  {
    forall r | 0 <= r < cfg.n && r != id
      ensures EndOf(s'.links[id][r], s'.links[r][id], id, r, x')
    {
      assert s'.links[r][id] == s.links[r][id];
      if r != q {
        assert EndOf(s.links[id][r], s.links[r][id], id, r, x);
        assert s'.links[id][r] == s.links[id][r];
      }
    }
  }

  /** An acknowledgement from `q` does to the process what its arrival in the system does. */
  lemma AcknowledgementIsPart(cfg: Config, s: LossySystem.State, s': LossySystem.State, id: nat, q: nat, x: State)
    returns (f: Link.Frame)
    requires LossySystem.Shape(cfg, s) && LossySystem.Shape(cfg, s') && id < cfg.n && q < cfg.n && q != id
    requires LossySystem.LinkStep(cfg, s, s', id, q) && Link.IsAcknowledged(s.links[id][q], s'.links[id][q])
    requires PartOf(cfg, s, id, x) && WellFormed(cfg, id, Ring.Connections(id, cfg.n), x)
    ensures !Link.IsSyn(f) && f in s.links[id][q].acks && Handleable(cfg, q, f)
    ensures PartOf(cfg, s', id, OnFrame(cfg, id, Ring.Connections(id, cfg.n), x, q, f))
  {
    f :| f in s.links[id][q].acks && !Link.IsSyn(f)
      && s'.links[id][q] == s.links[id][q].(sender := Link.NoteAck(s.links[id][q].sender, f));
    NotingIsPart(cfg, s, s', id, q, x, f);
  }

  lemma NotingIsPart(cfg: Config, s: LossySystem.State, s': LossySystem.State, id: nat, q: nat, x: State,
                     f: Link.Frame)
    requires LossySystem.Shape(cfg, s) && LossySystem.Shape(cfg, s') && id < cfg.n && q < cfg.n && q != id
    requires LossySystem.LinkStep(cfg, s, s', id, q) && !Link.IsSyn(f)
    requires s'.links[id][q] == s.links[id][q].(sender := Link.NoteAck(s.links[id][q].sender, f))
    requires PartOf(cfg, s, id, x) && WellFormed(cfg, id, Ring.Connections(id, cfg.n), x)
    ensures PartOf(cfg, s', id, OnFrame(cfg, id, Ring.Connections(id, cfg.n), x, q, f))
  {
    assert EndOf(s.links[id][q], s.links[q][id], id, q, x);
    OneEndIsPart(cfg, s, s', id, q, x, OnFrame(cfg, id, Ring.Connections(id, cfg.n), x, q, f));
  }

  /** The link after the timer of `f` expired. */
  function TimedOut(to: Link.State, f: Link.Frame): Link.State {
    to.(sender := Link.Expire(to.sender, f),
        wire := if Link.SeqNum(f) in to.sender.acknowledged then to.wire else to.wire + {f})
  }

  /** Sending again, seen from its end. */
  lemma TimeoutEnd(id: nat, q: nat, x: State, to: Link.State, back: Link.State, f: Link.Frame)
    requires q < |x.ends| && EndOf(to, back, id, q, x) && Link.IsSyn(f)
    ensures EndOf(TimedOut(to, f), back, id, q, OnTimeout(id, x, q, f)) && OnlyEnd(id, q, x, OnTimeout(id, x, q, f))
  {
    forall g
      ensures PacketTo(id, q, g) == PacketTo(id, q, f) <==> g == f
    {}
  }

  lemma TakeAtEnd(id: nat, q: nat, x: State, to: Link.State, back: Link.State)
    requires q < |x.ends| && EndOf(to, back, id, q, x) && to.sender.incoming != []
    ensures EndOf(to.(sender := Link.Take(to.sender)), back, id, q, OnTake(x, q)) && OnlyEnd(id, q, x, OnTake(x, q))
  {}

  /** A step of the worker on the link is one of the process. */
  lemma WorkOfLink(id: nat, q: nat, x: State, to: Link.State, to': Link.State, back: Link.State) returns (x': State)
    requires q < |x.ends| && EndOf(to, back, id, q, x) && Link.Inv(to) && Link.IsWork(to, to')
    ensures Works(id, x, q, x') && EndOf(to', back, id, q, x') && OnlyEnd(id, q, x, x')
  {
    if to.sender.incoming != [] && to' == to.(sender := Link.Take(to.sender)) {
      TakeAtEnd(id, q, x, to, back);
      x' := OnTake(x, q);
    } else {
      var f :| f in to.sender.scheduled && to' == TimedOut(to, f);
      assert Link.Genuine(to, f);
      TimeoutEnd(id, q, x, to, back, f);
      x' := OnTimeout(id, x, q, f);
    }
  }

  /** A step of the worker of the process is one of the link. */
  lemma WorkOfProcess(id: nat, q: nat, x: State, x': State, to: Link.State, back: Link.State) returns (to': Link.State)
    requires q < |x.ends| && EndOf(to, back, id, q, x) && Link.Inv(to) && Works(id, x, q, x')
    ensures Link.IsWork(to, to') && EndOf(to', back, id, q, x') && OnlyEnd(id, q, x, x')
  {
    if x.ends[q].sender.incoming != [] && x' == OnTake(x, q) {
      TakeAtEnd(id, q, x, to, back);
      to' := to.(sender := Link.Take(to.sender));
    } else {
      var f :| f in x.ends[q].sender.scheduled && x' == OnTimeout(id, x, q, f);
      assert Link.Genuine(to, f);
      TimeoutEnd(id, q, x, to, back, f);
      to' := TimedOut(to, f);
    }
  }

  /** What the worker of the system does, the worker of the process does. */
  lemma WorkIsPart(cfg: Config, s: LossySystem.State, s': LossySystem.State, id: nat, q: nat, x: State)
    returns (x': State)
    requires LossySystem.Shape(cfg, s) && LossySystem.Shape(cfg, s') && id < cfg.n && q < cfg.n && q != id
    requires LossySystem.LinkStep(cfg, s, s', id, q) && Link.IsWork(s.links[id][q], s'.links[id][q])
    requires Link.Inv(s.links[id][q]) && PartOf(cfg, s, id, x)
    ensures Works(id, x, q, x') && PartOf(cfg, s', id, x')
  {
    assert EndOf(s.links[id][q], s.links[q][id], id, q, x);
    x' := WorkOfLink(id, q, x, s.links[id][q], s'.links[id][q], s.links[q][id]);
    OneEndIsPart(cfg, s, s', id, q, x, x');
  }

  /** Whatever the worker of the process does, it is a step of the system. */
  lemma WorkIsStep(cfg: Config, s: LossySystem.State, id: nat, q: nat, x: State, x': State)
    returns (s': LossySystem.State)
    requires LossySystem.Shape(cfg, s) && LossySystem.LinksInv(cfg, s.links)
    requires id < cfg.n && q < cfg.n && q != id && id !in s.crashed
    requires PartOf(cfg, s, id, x) && Works(id, x, q, x')
    ensures LossySystem.Shape(cfg, s') && LossySystem.LinkStep(cfg, s, s', id, q) && PartOf(cfg, s', id, x')
    ensures Link.IsWork(s.links[id][q], s'.links[id][q])
  {
    assert EndOf(s.links[id][q], s.links[q][id], id, q, x);
    var to := WorkOfProcess(id, q, x, x', s.links[id][q], s.links[q][id]);
    s' := Continuation.SetLink(s, id, q, to);
    Continuation.InternalIsStep(cfg, s, id, q, to);
    Continuation.SetLinkElsewhere(cfg, s, id, q, to);
    OneEndIsPart(cfg, s, s', id, q, x, x');
  }

  // ------------------------------------------------------------------------------------------
  // The other processes
  // ------------------------------------------------------------------------------------------

  /** Nothing changed that the process has a part in. */
  lemma Untouched(cfg: Config, s: LossySystem.State, s': LossySystem.State, id: nat, x: State)
    requires LossySystem.Shape(cfg, s) && LossySystem.Shape(cfg, s') && id < cfg.n && PartOf(cfg, s, id, x)
    requires s'.procs[id] == s.procs[id]
    requires forall q :: 0 <= q < cfg.n && q != id ==>
               && s'.links[id][q].sender == s.links[id][q].sender && s'.links[id][q].wire == s.links[id][q].wire
               && s'.links[q][id].delivered == s.links[q][id].delivered && s'.links[q][id].acks == s.links[q][id].acks
    ensures PartOf(cfg, s', id, x)
  {
    forall q | 0 <= q < cfg.n && q != id
      ensures EndOf(s'.links[id][q], s'.links[q][id], id, q, x)
    {
      assert EndOf(s.links[id][q], s.links[q][id], id, q, x);
    }
  }

  lemma OtherBroadcast(cfg: Config, s: LossySystem.State, s': LossySystem.State, p: nat, id: nat, x: State)
    requires LossySystem.Shape(cfg, s) && LossySystem.Shape(cfg, s') && id < cfg.n && PartOf(cfg, s, id, x)
    requires p != id && LossySystem.BroadcastStep(cfg, s, s', p)
    ensures PartOf(cfg, s', id, x)
  {
    Untouched(cfg, s, s', id, x);
  }

  lemma OtherArrival(cfg: Config, s: LossySystem.State, s': LossySystem.State, p: nat, r: nat, f: Link.Frame, id: nat,
                     x: State)
    requires LossySystem.Shape(cfg, s) && LossySystem.Shape(cfg, s') && id < cfg.n && PartOf(cfg, s, id, x)
    requires r != id && LossySystem.ArrivalStep(cfg, s, s', p, r, f)
    ensures PartOf(cfg, s', id, x)
  {
    var arrived := LossySystem.Arrived(s.links, p, r, f);
    forall q | 0 <= q < cfg.n && q != id
      ensures s'.links[id][q].sender == s.links[id][q].sender && s'.links[id][q].wire == s.links[id][q].wire
      ensures s'.links[q][id].delivered == s.links[q][id].delivered && s'.links[q][id].acks == s.links[q][id].acks
    {
      assert arrived[q][id] == s.links[q][id];
      assert arrived[id][q].sender == s.links[id][q].sender && arrived[id][q].wire == s.links[id][q].wire;
    }
    Untouched(cfg, s, s', id, x);
  }

  lemma OtherLink(cfg: Config, s: LossySystem.State, s': LossySystem.State, p: nat, r: nat, id: nat, x: State)
    requires LossySystem.Shape(cfg, s) && LossySystem.Shape(cfg, s') && id < cfg.n && PartOf(cfg, s, id, x)
    requires p != id || r == id
    requires LossySystem.LinkStep(cfg, s, s', p, r)
    ensures PartOf(cfg, s', id, x)
  {
    forall q | 0 <= q < cfg.n && q != id
      ensures s'.links[id][q] == s.links[id][q]
      ensures s'.links[q][id].delivered == s.links[q][id].delivered && s'.links[q][id].acks == s.links[q][id].acks
    {
      if q == p && r == id {
        assert Link.IsInternal(s.links[q][id], s'.links[q][id]);
      } else {
        assert s'.links[q][id] == s.links[q][id];
      }
    }
    Untouched(cfg, s, s', id, x);
  }

  // ------------------------------------------------------------------------------------------
  // Whole runs
  // ------------------------------------------------------------------------------------------

  /** What the object of process `id` can do in one step of the system. */
  ghost predicate OwnStep(cfg: Config, id: nat, x: State, x': State)
    requires id < cfg.n && WellFormed(cfg, id, Ring.Connections(id, cfg.n), x)
  {
    || x' == x
    || x' == OnBroadcast(cfg, id, Ring.Connections(id, cfg.n), x)
    || (exists p, f :: Handleable(cfg, p, f) && x' == OnFrame(cfg, id, Ring.Connections(id, cfg.n), x, p, f))
    || (exists q :: 0 <= q < cfg.n && Works(id, x, q, x'))
  }

  lemma WorkKeepsShape(cfg: Config, id: nat, x: State, q: nat, x': State)
    requires id < cfg.n && WellFormed(cfg, id, Ring.Connections(id, cfg.n), x) && q < cfg.n && Works(id, x, q, x')
    ensures WellFormed(cfg, id, Ring.Connections(id, cfg.n), x')
  {}

  lemma IssuedOnLink(cfg: Config, s: System.State, p: nat, q: nat)
    requires System.Shape(cfg, s) && p < cfg.n && q < cfg.n && System.ChannelSound(cfg, s, p, q)
    requires s.net[p][q].issued != []
    ensures (p, q) in cfg.links
  {
    assert System.Genuine(cfg, s, p, q, s.net[p][q].issued[0]);
  }

  /** No process sends to itself over the network. */
  lemma NothingIssued(cfg: Config, s: System.State, id: nat)
    requires System.Shape(cfg, s) && Dissemination.OnRing(cfg) && id < cfg.n && System.ChannelSound(cfg, s, id, id)
    ensures s.net[id][id].issued == []
  {
    Ring.Degree(id, cfg.n);
    RingList(cfg, id, id);
    if s.net[id][id].issued != [] {
      IssuedOnLink(cfg, s, id, id);
      assert false;
    }
  }

  lemma NoSelfLink(cfg: Config, s: LossySystem.State, id: nat, f: Link.Frame)
    requires Transmission.Good(cfg, s) && Dissemination.OnRing(cfg) && id < cfg.n
    ensures f !in s.links[id][id].wire
  {
    NothingIssued(cfg, LossySystem.Abs(cfg, s), id);
    assert Link.Inv(s.links[id][id]);
    assert s.links[id][id].issued == [];
  }

  lemma LinkStepIsOwn(cfg: Config, s: LossySystem.State, s': LossySystem.State, id: nat, q: nat, x: State)
    returns (x': State)
    requires LossySystem.Shape(cfg, s) && LossySystem.Shape(cfg, s') && LossySystem.LinksInv(cfg, s.links)
    requires id < cfg.n && q < cfg.n && q != id && LossySystem.LinkStep(cfg, s, s', id, q)
    requires PartOf(cfg, s, id, x) && WellFormed(cfg, id, Ring.Connections(id, cfg.n), x)
    ensures OwnStep(cfg, id, x, x') && PartOf(cfg, s', id, x')
    ensures WellFormed(cfg, id, Ring.Connections(id, cfg.n), x')
  {
    if Link.IsWork(s.links[id][q], s'.links[id][q]) {
      x' := WorkIsPart(cfg, s, s', id, q, x);
      WorkKeepsShape(cfg, id, x, q, x');
    } else {
      var f := AcknowledgementIsPart(cfg, s, s', id, q, x);
      x' := OnFrame(cfg, id, Ring.Connections(id, cfg.n), x, q, f);
    }
  }

  lemma ReactionIsOwn(cfg: Config, s: LossySystem.State, s': LossySystem.State, id: nat, x: State) returns (x': State)
    requires Transmission.Good(cfg, s) && LossySystem.Shape(cfg, s') && Dissemination.OnRing(cfg) && id < cfg.n
    requires LossySystem.Reaction(cfg, s, s')
    requires PartOf(cfg, s, id, x) && WellFormed(cfg, id, Ring.Connections(id, cfg.n), x)
    ensures OwnStep(cfg, id, x, x') && PartOf(cfg, s', id, x')
    ensures WellFormed(cfg, id, Ring.Connections(id, cfg.n), x')
  {
    x' := x;
    if p: nat, r: nat, f :| LossySystem.ArrivalStep(cfg, s, s', p, r, f) {
      if r == id {
        NoSelfLink(cfg, s, id, f);
        ArrivalIsPart(cfg, s, s', p, id, f, x);
        x' := OnFrame(cfg, id, Ring.Connections(id, cfg.n), x, p, f);
      } else {
        OtherArrival(cfg, s, s', p, r, f, id, x);
      }
    } else if p: nat, r: nat :| LossySystem.LinkStep(cfg, s, s', p, r) {
      if p == id && r != id {
        x' := LinkStepIsOwn(cfg, s, s', id, r, x);
      } else {
        OtherLink(cfg, s, s', p, r, id, x);
      }
    } else {
      Untouched(cfg, s, s', id, x);
    }
  }

  /** Every step of the system is, for each process, one of the things that its object does, or nothing. */
  lemma StepIsOwn(cfg: Config, s: LossySystem.State, s': LossySystem.State, id: nat, x: State) returns (x': State)
    requires Transmission.Good(cfg, s) && LossySystem.Next(cfg, s, s') && Dissemination.OnRing(cfg) && id < cfg.n
    requires PartOf(cfg, s, id, x) && WellFormed(cfg, id, Ring.Connections(id, cfg.n), x)
    ensures OwnStep(cfg, id, x, x') && PartOf(cfg, s', id, x')
    ensures WellFormed(cfg, id, Ring.Connections(id, cfg.n), x')
  {
    if p: nat :| LossySystem.BroadcastStep(cfg, s, s', p) {
      if p == id {
        BroadcastIsPart(cfg, s, s', id, x);
        x' := OnBroadcast(cfg, id, Ring.Connections(id, cfg.n), x);
      } else {
        OtherBroadcast(cfg, s, s', p, id, x);
        x' := x;
      }
    } else {
      x' := ReactionIsOwn(cfg, s, s', id, x);
    }
  }

  /** `xs` is what the object of process `id` goes through in the run. */
  ghost predicate OwnRun(cfg: Config, run: seq<LossySystem.State>, id: nat, xs: seq<State>)
    requires id < cfg.n && forall i :: 0 <= i < |run| ==> LossySystem.Shape(cfg, run[i])
  {
    && |xs| == |run| > 0 && xs[0] == Init(cfg.n)
    && (forall i :: 0 <= i < |xs| ==>
      WellFormed(cfg, id, Ring.Connections(id, cfg.n), xs[i]) && PartOf(cfg, run[i], id, xs[i]))
    && forall i :: 0 < i < |xs| ==> OwnStep(cfg, id, xs[i - 1], xs[i])
  }

  lemma OwnRunOn(cfg: Config, run: seq<LossySystem.State>, id: nat, xs: seq<State>, x: State)
    requires id < cfg.n && |run| > 1 && forall i :: 0 <= i < |run| ==> LossySystem.Shape(cfg, run[i])
    requires OwnRun(cfg, run[..|run| - 1], id, xs)
    requires WellFormed(cfg, id, Ring.Connections(id, cfg.n), x) && PartOf(cfg, run[|run| - 1], id, x)
    requires OwnStep(cfg, id, xs[|xs| - 1], x)
    ensures OwnRun(cfg, run, id, xs + [x])
  {
    var longer := xs + [x];
    forall i | 0 <= i < |longer|
      ensures WellFormed(cfg, id, Ring.Connections(id, cfg.n), longer[i]) && PartOf(cfg, run[i], id, longer[i])
    {
      if i < |xs| {
        assert longer[i] == xs[i] && run[..|run| - 1][i] == run[i];
      }
    }
    forall i | 0 < i < |longer|
      ensures OwnStep(cfg, id, longer[i - 1], longer[i])
    {
      if i < |xs| {
        assert longer[i - 1] == xs[i - 1] && longer[i] == xs[i];
      }
    }
  }

  /** Where the object is before the last step of the run. */
  lemma OwnLast(cfg: Config, run: seq<LossySystem.State>, id: nat, xs: seq<State>)
    requires id < cfg.n && |run| > 1 && forall i :: 0 <= i < |run| ==> LossySystem.Shape(cfg, run[i])
    requires OwnRun(cfg, run[..|run| - 1], id, xs)
    ensures |xs| == |run| - 1 && WellFormed(cfg, id, Ring.Connections(id, cfg.n), xs[|xs| - 1])
    ensures PartOf(cfg, run[|run| - 2], id, xs[|xs| - 1])
  {}

  lemma FrontIsGood(cfg: Config, run: seq<LossySystem.State>)
    requires LossySystem.Execution(cfg, run) && |run| > 1
    ensures LossySystem.Execution(cfg, run[..|run| - 1]) && LossySystem.Next(cfg, run[|run| - 2], run[|run| - 1])
    ensures Transmission.Good(cfg, run[|run| - 2])
  {
    LossySystem.ExecutionFront(cfg, run);
    Transmission.ExecutionGood(cfg, run[..|run| - 1]);
  }

  lemma BeginsAsPart(cfg: Config, s: LossySystem.State, id: nat)
    requires LossySystem.Start(cfg, s) && Dissemination.OnRing(cfg) && id < cfg.n
    ensures WellFormed(cfg, id, Ring.Connections(id, cfg.n), Init(cfg.n)) && PartOf(cfg, s, id, Init(cfg.n))
  {
    StartsAsPart(cfg, s, id);
  }

  /** Main result: every run of the system is, for each process, a run of what its object does, from its
      initial state, with the same layers, the same ends of the links and the same traffic at every moment. */
  lemma {:induction false} RunIsOwn(cfg: Config, run: seq<LossySystem.State>, id: nat) returns (xs: seq<State>)
    requires LossySystem.Execution(cfg, run) && Dissemination.OnRing(cfg) && id < cfg.n
    ensures OwnRun(cfg, run, id, xs)
  {
    if |run| == 1 {
      BeginsAsPart(cfg, run[0], id);
      xs := [Init(cfg.n)];
    } else {
      FrontIsGood(cfg, run);
      xs := RunIsOwn(cfg, run[..|run| - 1], id);
      OwnLast(cfg, run, id, xs);
      var x := StepIsOwn(cfg, run[|run| - 2], run[|run| - 1], id, xs[|xs| - 1]);
      OwnRunOn(cfg, run, id, xs, x);
      xs := xs + [x];
    }
  }
}
