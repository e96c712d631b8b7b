/** Uniform reliable broadcast over best-effort broadcast over the sending half of the link, as nested
    calls: a message sent to oneself is delivered on the spot, so `Deliver` re-enters itself. */
module UniformReliableBroadcast {
  import opened Messages
  import CausalOrder
  import KeySet
  import Link
  import LocalizedCausalBroadcast
  import Peers
  import PerfectLink
  import Protocol
  import Quorum
  import Ring

  /** What best-effort broadcast transmits: one packet per neighbour, each with the next number of its
      link. */
  function Fanout(id: nat, connections: seq<nat>, ends: seq<PerfectLink.End>, b: Body): seq<Packet>
    requires forall i :: 0 <= i < |connections| ==> connections[i] < |ends|
  {
    seq(|connections|, i requires 0 <= i < |connections| =>
      Packet(connections[i], Message(ends[connections[i]].sender.next, id, b)))
  }

  /** The ends of the links after best-effort broadcast, which also sends to oneself. */
  function Sent(id: nat, connections: seq<nat>, ends: seq<PerfectLink.End>, b: Body): seq<PerfectLink.End>
    requires id < |ends|
  {
    Peers.Skipped(Peers.IssuedTo(ends, connections, b), id)
  }

  /** The first `i` neighbours have been sent to, starting from the given packets and ends. */
  ghost predicate SentUpTo(id: nat, connections: seq<nat>, packets: seq<Packet>, ends: seq<PerfectLink.End>, b: Body,
                           i: nat, packets': seq<Packet>, ends': seq<PerfectLink.End>)
    requires forall i :: 0 <= i < |connections| ==> connections[i] < |ends|
  {
    && i <= |connections|
    && packets' == packets + Fanout(id, connections, ends, b)[..i]
    && ends' == Peers.IssuedTo(ends, connections[..i], b)
  }

  lemma NothingSent(id: nat, connections: seq<nat>, packets: seq<Packet>, ends: seq<PerfectLink.End>, b: Body)
    requires forall i :: 0 <= i < |connections| ==> connections[i] < |ends|
    ensures SentUpTo(id, connections, packets, ends, b, 0, packets, ends)
  {
    assert Peers.IssuedTo(ends, connections[..0], b) == ends;
  }

  lemma SentOneMore(id: nat, connections: seq<nat>, packets: seq<Packet>, ends: seq<PerfectLink.End>, b: Body, i: nat,
                    packets': seq<Packet>, ends': seq<PerfectLink.End>)
    requires forall i :: 0 <= i < |connections| ==> connections[i] < |ends|
    requires forall i, j :: 0 <= i < j < |connections| ==> connections[i] != connections[j]
    requires i < |connections| && SentUpTo(id, connections, packets, ends, b, i, packets', ends')
    ensures connections[i] < |ends'|
    ensures SentUpTo(id, connections, packets, ends, b, i + 1,
                     packets' + [Packet(connections[i], Message(ends'[connections[i]].sender.next, id, b))],
                     Peers.IssuedOn(ends', connections[i], b))
  {
    var fanout := Fanout(id, connections, ends, b);
    assert connections[i] !in connections[..i];
    assert connections[..i + 1] == connections[..i] + [connections[i]];
    assert fanout[..i + 1] == fanout[..i] + [fanout[i]];
  }

  lemma AllSent(id: nat, connections: seq<nat>, packets: seq<Packet>, ends: seq<PerfectLink.End>, b: Body,
                packets': seq<Packet>, ends': seq<PerfectLink.End>)
    requires forall i :: 0 <= i < |connections| ==> connections[i] < |ends|
    requires SentUpTo(id, connections, packets, ends, b, |connections|, packets', ends')
    ensures packets' == packets + Fanout(id, connections, ends, b)
    ensures ends' == Peers.IssuedTo(ends, connections, b)
  {
    var fanout := Fanout(id, connections, ends, b);
    assert connections[..|connections|] == connections && fanout[..|connections|] == fanout;
  }

  method ConnectedRing(id: nat, n: nat) returns (connections: seq<nat>)
    requires id < n && 2 <= n
    ensures connections == Ring.Connections(id, n)
    ensures forall i :: 0 <= i < |connections| ==> connections[i] < n && connections[i] != id
    ensures forall i, j :: 0 <= i < j < |connections| ==> connections[i] != connections[j]
  {
    connections := Ring.CreateNConnectedRing(id, n);
    Ring.Degree(id, n);
    assert forall i :: 0 <= i < |connections| ==> connections[i] in connections;
  }

  /** The whole layer as a value: its sets, the layer above, the ends of its links, and what it gave to the
      network. */
  datatype Snapshot = Snapshot(urb: Quorum.State, lcb: CausalOrder.State, ends: seq<PerfectLink.End>,
                               transmitted: seq<Packet>)

  /** One reaction, with its relay and its delivery. */
  ghost function Reacted(cfg: Config, id: nat, connections: seq<nat>, x: Snapshot, sender: nat, b: Body): Snapshot
    requires CausalOrder.WellFormed(cfg, x.lcb) && cfg.Admits(b) && id < |x.ends|
    requires forall i :: 0 <= i < |connections| ==> connections[i] < |x.ends|
  {
    var r := Quorum.React(cfg.n, id, x.urb, sender, b.Id());
    Snapshot(r.st, Protocol.Upcall(cfg, x.lcb, r.up, b),
             if r.relay then Sent(id, connections, x.ends, b) else x.ends,
             if r.relay then x.transmitted + Fanout(id, connections, x.ends, b) else x.transmitted)
  }

  /** The key after it was marked as pending and heard from oneself. */
  function Nested(cfg: Config, id: nat, st: Quorum.State, k: Key): Quorum.Reaction {
    Quorum.React(cfg.n, id, st.(pending := st.pending + {k}), id, k)
  }

  /** The key is marked as pending and the message sent to all, which delivers it to oneself. */
  ghost function Spread(cfg: Config, id: nat, connections: seq<nat>, x: Snapshot, b: Body): (r: Snapshot)
    requires CausalOrder.WellFormed(cfg, x.lcb) && cfg.Admits(b) && id < |x.ends|
    requires forall i :: 0 <= i < |connections| ==> connections[i] < |x.ends|
    ensures CausalOrder.WellFormed(cfg, r.lcb)
  {
    var nested := Nested(cfg, id, x.urb, b.Id());
    Snapshot(nested.st, Protocol.Upcall(cfg, x.lcb, nested.up, b),
             Sent(id, connections, x.ends, b),
             x.transmitted + Fanout(id, connections, x.ends, b))
  }

  /** An attempt to deliver: with a majority of acknowledgements the message goes up and they are erased;
      otherwise looking them up may leave an empty entry behind. */
  ghost function Tried(cfg: Config, x: Snapshot, b: Body): Snapshot
    requires CausalOrder.WellFormed(cfg, x.lcb) && cfg.Admits(b)
  {
    if |Quorum.Acks(x.urb.ack, b.Id())| > cfg.n / 2 then HandedUp(cfg, x, b) else Touched(x, b.Id())
  }

  ghost function HandedUp(cfg: Config, x: Snapshot, b: Body): Snapshot
    requires CausalOrder.WellFormed(cfg, x.lcb) && cfg.Admits(b)
  {
    x.(urb := Quorum.State(x.urb.pending, x.urb.delivered + {b.Id()}, x.urb.ack - {b.Id()}),
       lcb := CausalOrder.Accept(cfg, x.lcb, b))
  }

  function Touched(x: Snapshot, k: Key): Snapshot {
    x.(urb := x.urb.(ack := x.urb.ack[k := Quorum.Acks(x.urb.ack, k)]))
  }

  lemma TouchedThenForgotten(cfg: Config, x: Snapshot, b: Body)
    requires CausalOrder.WellFormed(cfg, x.lcb) && cfg.Admits(b)
    ensures HandedUp(cfg, Touched(x, b.Id()), b) == HandedUp(cfg, x, b)
  {
    var ack, k := x.urb.ack, b.Id();
    assert ack[k := Quorum.Acks(ack, k)] - {k} == ack - {k};
  }

  function WithSender(x: Snapshot, k: Key, sender: nat): Snapshot {
    x.(urb := x.urb.(ack := x.urb.ack[k := Quorum.Acks(x.urb.ack, k) + {sender}]))
  }

  /** The first copy of a key: recording the sender, relaying and trying is one reaction. */
  lemma FirstCopyIsRelay(cfg: Config, id: nat, connections: seq<nat>, x: Snapshot, sender: nat, b: Body)
    requires CausalOrder.WellFormed(cfg, x.lcb) && cfg.Admits(b) && id < |x.ends|
    requires forall i :: 0 <= i < |connections| ==> connections[i] < |x.ends|
    requires b.Id() !in x.urb.delivered && b.Id() !in x.urb.pending
    ensures Reacted(cfg, id, connections, x, sender, b)
         == Tried(cfg, Spread(cfg, id, connections, WithSender(x, b.Id(), sender), b), b)
  {
    Quorum.NestedRelay(cfg.n, id, x.urb, sender, b.Id());
  }

  /** A later copy: recording the sender and trying is one reaction. */
  lemma LaterCopyIsTry(cfg: Config, id: nat, connections: seq<nat>, x: Snapshot, sender: nat, b: Body)
    requires CausalOrder.WellFormed(cfg, x.lcb) && cfg.Admits(b) && id < |x.ends|
    requires forall i :: 0 <= i < |connections| ==> connections[i] < |x.ends|
    requires b.Id() !in x.urb.delivered && b.Id() in x.urb.pending
    ensures Reacted(cfg, id, connections, x, sender, b) == Tried(cfg, WithSender(x, b.Id(), sender), b)
  {
    Quorum.NoRelay(cfg.n, id, x.urb, sender, b.Id());
  }

  class UniformReliable {
    const id: nat
    const n: nat
    const connections: seq<nat>
    const observer: LocalizedCausalBroadcast.LocalizedCausal
    const pending: KeySet.KeySet
    const delivered: KeySet.KeySet
    var ack: map<Key, set<nat>>
    const peers: Peers.PeerTable
    /** Everything given to the network so far. */
    var transmitted: seq<Packet>
    ghost var Repr: set<object>

    ghost function State(): Quorum.State
      reads this, pending, delivered
    {
      Quorum.State(pending.Keys, delivered.Keys, ack)
    }

    ghost function Whole(): Snapshot
      reads this, pending, delivered, observer, peers
    {
      Snapshot(State(), observer.State(), peers.Ends, transmitted)
    }

    ghost predicate Valid()
      reads this, Repr
      ensures Valid() ==> this in Repr
    {
      && {this, observer, pending, delivered, peers} <= Repr
      && pending.Repr <= Repr && delivered.Repr <= Repr && peers.Repr <= Repr
      && Separate()
      && observer.Valid() && observer.id == id && observer.cfg.n == n
      && id < n && pending.Valid() && delivered.Valid() && peers.Valid()
      && |pending.sets| == |delivered.sets| == |peers.peers| == n
      && (forall i :: 0 <= i < |connections| ==> connections[i] < n && connections[i] != id)
      && forall i, j :: 0 <= i < j < |connections| ==> connections[i] != connections[j]
    }

    ghost predicate Separate()
      reads this, pending, delivered, peers
    {
      && this !in pending.Repr && this !in delivered.Repr && this !in peers.Repr
      && observer !in pending.Repr && observer !in delivered.Repr && observer !in peers.Repr
      && pending.Repr !! delivered.Repr && pending.Repr !! peers.Repr && delivered.Repr !! peers.Repr
    }

    constructor (observer: LocalizedCausalBroadcast.LocalizedCausal)
      requires observer.Valid()
      ensures Valid() && fresh(Repr - {observer}) && State() == Quorum.INIT && transmitted == []
      ensures this.observer == observer && id == observer.id && n == observer.cfg.n
      ensures peers.Ends == seq(n, _ => PerfectLink.UNUSED) && connections == Ring.Connections(id, n)
    {
      var ring := ConnectedRing(observer.id, observer.cfg.n);
      var pendingKeys, deliveredKeys, table := NewStores(observer.cfg.n);
      this.observer := observer;
      id, n, connections := observer.id, observer.cfg.n, ring;
      ack, transmitted := map[], [];
      pending, delivered, peers := pendingKeys, deliveredKeys, table;
      Repr := {this, observer} + pendingKeys.Repr + deliveredKeys.Repr + table.Repr;
    }

    static method NewStores(n: nat) returns (pending: KeySet.KeySet, delivered: KeySet.KeySet, peers: Peers.PeerTable)
      ensures fresh(pending.Repr) && fresh(delivered.Repr) && fresh(peers.Repr)
      ensures pending.Repr !! delivered.Repr && pending.Repr !! peers.Repr && delivered.Repr !! peers.Repr
      ensures pending.Valid() && pending.Keys == {} && |pending.sets| == n
      ensures delivered.Valid() && delivered.Keys == {} && |delivered.sets| == n
      ensures peers.Valid() && peers.Ends == seq(n, _ => PerfectLink.UNUSED)
    {
      pending := new KeySet.KeySet(n);
      delivered := new KeySet.KeySet(n);
      peers := new Peers.PeerTable(n);
    }

    /** Sends on the link to another process. */
    method LinkSend(receiver: nat, b: Body)
      requires Valid() && receiver < n && receiver != id
      modifies this`transmitted, peers.Repr
      ensures Valid() && peers.Repr == old(peers.Repr) && peers.Ends == Peers.IssuedOn(old(peers.Ends), receiver, b)
      ensures transmitted ==
              old(transmitted) + [Packet(receiver, Message(old(peers.Ends)[receiver].sender.next, id, b))]
    {
      var frame := peers.Send(receiver, b);
      transmitted := transmitted + [Packet(receiver, Message(frame.number, id, frame.body))];
    }

    /** A frame from the network, up to handing it up. */
    method LinkDeliver(sender: nat, f: Link.Frame) returns (handUp: bool, reply: PerfectLink.Option<Link.Frame>)
      requires Valid() && sender < n
      modifies this`Repr, peers.Repr
      ensures Valid() && fresh(Repr - old(Repr)) && peers.Ends == Peers.Noted(old(peers.Ends), sender, f)
      ensures handUp == (Link.IsSyn(f) && Link.SeqNum(f) !in old(peers.Ends)[sender].seen)
      ensures reply == if Link.IsSyn(f) then PerfectLink.Some(Link.SetAck(f)) else PerfectLink.None
    {
      handUp, reply := peers.Deliver(sender, f);
      Repr := Repr + peers.Repr;
    }

    /** One iteration of the worker towards `q`, and what it transmits. */
    method Work(q: nat, now: nat, later: nat) returns (ghost resend: PerfectLink.Option<Link.Frame>)
      requires Valid() && q < n && now <= later && peers.peers[q].MayAct(later)
      modifies this`transmitted, peers.Repr
      ensures Valid() && peers.Ends == old(peers.Ends)[q := peers.Ends[q]]
      ensures Peers.Worked(old(peers.Ends)[q], old(peers.peers[q].Plan()), now, later, peers.Ends[q],
                           peers.peers[q].Plan().times, resend)
      ensures transmitted == old(transmitted) + match resend
                case None => []
                case Some(f) => [Packet(q, Message(f.number, id, f.body))]
    {
      var frame := WorkOn(q, now, later);
      resend := frame;
      if frame.Some? {
        Transmit(q, frame.value);
      }
    }

    method WorkOn(q: nat, now: nat, later: nat) returns (resend: PerfectLink.Option<Link.Frame>)
      requires Valid() && q < n && now <= later && peers.peers[q].MayAct(later)
      modifies peers.Repr
      ensures Valid() && peers.Ends == old(peers.Ends)[q := peers.Ends[q]]
      ensures Peers.Worked(old(peers.Ends)[q], old(peers.peers[q].Plan()), now, later, peers.Ends[q],
                           peers.peers[q].Plan().times, resend)
    {
      resend := peers.Work(q, now, later);
    }

    method Transmit(receiver: nat, f: Link.Frame)
      requires Valid()
      modifies this`transmitted
      ensures Valid() && transmitted == old(transmitted) + [Packet(receiver, Message(f.number, id, f.body))]
    {
      transmitted := transmitted + [Packet(receiver, Message(f.number, id, f.body))];
    }

    /** A message to oneself is delivered on the spot. */
    method SelfSend(b: Body)
      requires Valid() && observer.cfg.Admits(b) && b.Id() in pending.Keys
      modifies Repr
      ensures Valid() && fresh(Repr - old(Repr))
      ensures peers.Ends == Peers.Skipped(old(peers.Ends), id) && transmitted == old(transmitted)
      ensures var r := Quorum.React(n, id, old(State()), id, b.Id());
                && State() == r.st
                && observer.State() == Protocol.Upcall(observer.cfg, old(observer.State()), r.up, b)
      decreases 0, 1
    {
      var number := peers.Skip(id);
      Deliver(Message(number, id, b));
    }

    /** Best-effort broadcast: every neighbour, then oneself. */
    method BestEffortSend(b: Body)
      requires Valid() && observer.cfg.Admits(b) && b.Id() in pending.Keys
      modifies Repr
      ensures Valid() && fresh(Repr - old(Repr))
      ensures transmitted == old(transmitted) + Fanout(id, connections, old(peers.Ends), b)
      ensures peers.Ends == Sent(id, connections, old(peers.Ends), b)
      ensures var r := Quorum.React(n, id, old(State()), id, b.Id());
                && State() == r.st
                && observer.State() == Protocol.Upcall(observer.cfg, old(observer.State()), r.up, b)
      decreases 0, 3
    {
      SendToNeighbors(b);
      SelfSend(b);
    }

    method SendToNeighbors(b: Body)
      requires Valid()
      modifies this`transmitted, peers.Repr
      ensures Valid()
      ensures transmitted == old(transmitted) + Fanout(id, connections, old(peers.Ends), b)
      ensures peers.Ends == Peers.IssuedTo(old(peers.Ends), connections, b)
    {
      ghost var packets, ends := transmitted, peers.Ends;
      NothingSent(id, connections, packets, ends, b);
      for i := 0 to |connections|
        invariant Valid() && peers.Repr == old(peers.Repr)
        invariant SentUpTo(id, connections, packets, ends, b, i, transmitted, peers.Ends)
      {
        SendToNeighbor(b, i, packets, ends);
      }
      AllSent(id, connections, packets, ends, b, transmitted, peers.Ends);
    }

    method SendToNeighbor(b: Body, i: nat, ghost packets: seq<Packet>, ghost ends: seq<PerfectLink.End>)
      requires Valid() && i < |connections| && |ends| == n
      requires SentUpTo(id, connections, packets, ends, b, i, transmitted, peers.Ends)
      modifies this`transmitted, peers.Repr
      ensures Valid() && peers.Repr == old(peers.Repr)
      ensures SentUpTo(id, connections, packets, ends, b, i + 1, transmitted, peers.Ends)
    {
      SentOneMore(id, connections, packets, ends, b, i, transmitted, peers.Ends);
      LinkSend(connections[i], b);
    }

    method IsPending(k: Key) returns (found: bool)
      requires Valid() && k.originator < n
      ensures found <==> k in pending.Keys
    {
      found := pending.Contains(k);
    }

    method IsDelivered(k: Key) returns (found: bool)
      requires Valid() && k.originator < n
      ensures found <==> k in delivered.Keys
    {
      found := delivered.Contains(k);
    }

    method NotePending(k: Key)
      requires Valid() && k.originator < n
      modifies this`Repr, pending.Repr
      ensures Valid() && fresh(Repr - old(Repr)) && pending.Keys == old(pending.Keys) + {k}
    {
      pending.Insert(k);
      Repr := Repr + pending.Repr;
    }

    method NoteDelivered(k: Key)
      requires Valid() && k.originator < n
      modifies this`Repr, delivered.Repr
      ensures Valid() && fresh(Repr - old(Repr)) && fresh(delivered.Repr - old(delivered.Repr))
      ensures delivered.Keys == old(delivered.Keys) + {k}
    {
      delivered.Insert(k);
      Repr := Repr + delivered.Repr;
    }

    /** The acknowledgements of a delivered key are not needed any more. */
    method Forget(k: Key)
      requires Valid()
      modifies this`ack
      ensures Valid() && ack == old(ack) - {k}
    {
      ack := ack - {k};
    }

    method Upcall(b: Body)
      requires Valid() && observer.cfg.Admits(b)
      modifies observer
      ensures Valid() && observer.State() == CausalOrder.Accept(observer.cfg, old(observer.State()), b)
    {
      observer.Deliver(b);
    }

    method HandUp(b: Body)
      requires Valid() && observer.cfg.Admits(b)
      modifies this`ack, this`Repr, observer, delivered.Repr
      ensures Valid() && fresh(Repr - old(Repr)) && fresh(delivered.Repr - old(delivered.Repr))
      ensures Whole() == HandedUp(observer.cfg, old(Whole()), b)
    {
      NoteDelivered(b.Id());
      Forget(b.Id());
      Upcall(b);
    }

    /** Looking up a missing entry creates an empty one. */
    method CountAcks(k: Key) returns (count: nat)
      requires Valid()
      modifies this`ack
      ensures Valid() && count == |Quorum.Acks(old(ack), k)| && Whole() == Touched(old(Whole()), k)
    {
      ack := ack[k := Quorum.Acks(ack, k)];
      count := |ack[k]|;
    }

    method TryDeliver(b: Body)
      requires Valid() && observer.cfg.Admits(b)
      modifies this`ack, this`Repr, observer, delivered.Repr
      ensures Valid() && fresh(Repr - old(Repr)) && Whole() == Tried(observer.cfg, old(Whole()), b)
    {
      TouchedThenForgotten(observer.cfg, Whole(), b);
      var count := CountAcks(b.Id());
      if count > n / 2 {
        HandUp(b);
      }
    }

    /** A message from the link. The nested delivery of one's own relay may complete the quorum; then
        the outer attempt finds no acknowledgements and does nothing more. */
    method Deliver(msg: Message)
      requires Valid() && observer.cfg.Admits(msg.body) && msg.sender < n
      modifies Repr
      ensures Valid() && fresh(Repr - old(Repr))
      ensures Whole() == Reacted(observer.cfg, id, connections, old(Whole()), msg.sender, msg.body)
      decreases if msg.body.Id() in pending.Keys then 0 else 1, 0, 2
    {
      var alreadyDelivered := IsDelivered(msg.body.Id());
      if alreadyDelivered {
        return;
      }
      DeliverUndelivered(msg);
    }

    method DeliverCopy(msg: Message, known: bool)
      requires Valid() && observer.cfg.Admits(msg.body) && msg.sender < n
      requires msg.body.Id() !in delivered.Keys && (known <==> msg.body.Id() in pending.Keys)
      modifies Repr
      ensures Valid() && fresh(Repr - old(Repr))
      ensures Whole() == Reacted(observer.cfg, id, connections, old(Whole()), msg.sender, msg.body)
      decreases if known then 0 else 1, 0, 0
    {
      if known {
        LaterCopy(msg);
      } else {
        FirstCopy(msg);
      }
    }

    method DeliverUndelivered(msg: Message)
      requires Valid() && observer.cfg.Admits(msg.body) && msg.sender < n
      requires msg.body.Id() !in delivered.Keys
      modifies Repr
      ensures Valid() && fresh(Repr - old(Repr))
      ensures Whole() == Reacted(observer.cfg, id, connections, old(Whole()), msg.sender, msg.body)
      decreases if msg.body.Id() in pending.Keys then 0 else 1, 0, 1
    {
      var known := IsPending(msg.body.Id());
      DeliverCopy(msg, known);
    }

    method NoteSender(k: Key, sender: nat)
      requires Valid()
      modifies this`ack
      ensures Valid() && Whole() == WithSender(old(Whole()), k, sender)
    {
      ack := ack[k := Quorum.Acks(ack, k) + {sender}];
    }

    /** A key already relayed: record the sender and try. */
    method LaterCopy(msg: Message)
      requires Valid() && observer.cfg.Admits(msg.body) && msg.sender < n
      requires msg.body.Id() !in delivered.Keys && msg.body.Id() in pending.Keys
      modifies this`ack, this`Repr, observer, delivered.Repr
      ensures Valid() && fresh(Repr - old(Repr))
      ensures Whole() == Reacted(observer.cfg, id, connections, old(Whole()), msg.sender, msg.body)
    {
      LaterCopyIsTry(observer.cfg, id, connections, Whole(), msg.sender, msg.body);
      NoteSender(msg.body.Id(), msg.sender);
      TryDeliver(msg.body);
    }

    /** A new key: record the sender, relay, and try. */
    method FirstCopy(msg: Message)
      requires Valid() && observer.cfg.Admits(msg.body) && msg.sender < n
      requires msg.body.Id() !in delivered.Keys && msg.body.Id() !in pending.Keys
      modifies Repr
      ensures Valid() && fresh(Repr - old(Repr))
      ensures Whole() == Reacted(observer.cfg, id, connections, old(Whole()), msg.sender, msg.body)
      decreases 0, 6
    {
      FirstCopyIsRelay(observer.cfg, id, connections, Whole(), msg.sender, msg.body);
      NoteSender(msg.body.Id(), msg.sender);
      RelayAndTry(msg.body);
    }

    /** Send on, which may deliver, and try again. */
    method RelayAndTry(b: Body)
      requires Valid() && observer.cfg.Admits(b)
      modifies Repr
      ensures Valid() && fresh(Repr - old(Repr))
      ensures Whole() == Tried(observer.cfg, Spread(observer.cfg, id, connections, old(Whole()), b), b)
      decreases 0, 5
    {
      SendToAll(b);
      TryDeliver(b);
    }

    /** Remembers the key before sending, so that the delivery to oneself does not send again. */
    method SendToAll(b: Body)
      requires Valid() && observer.cfg.Admits(b)
      modifies Repr
      ensures Valid() && fresh(Repr - old(Repr))
      ensures Whole() == Spread(observer.cfg, id, connections, old(Whole()), b)
      decreases 0, 4
    {
      NotePending(b.Id());
      BestEffortSend(b);
    }

    /** Starts the broadcast of one's own message. */
    method Send(b: Body)
      requires Valid() && observer.cfg.Admits(b)
      modifies Repr
      ensures Valid() && fresh(Repr - old(Repr))
      ensures var r := Quorum.Start(n, id, old(State()), b.Id());
                && State() == r.st
                && observer.State() == Protocol.Upcall(observer.cfg, old(observer.State()), r.up, b)
                && transmitted == old(transmitted) + Fanout(id, connections, old(peers.Ends), b)
                && peers.Ends == Sent(id, connections, old(peers.Ends), b)
    {
      SendToAll(b);
    }
  }
}
