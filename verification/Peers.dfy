/** All peers of one process: the two ends that it holds towards each of the others. */
module Peers {
  import opened Messages
  import opened Link
  import opened PerfectLink

  /** `b` is sent to every process in the list. */
  function IssuedTo(ends: seq<End>, list: seq<nat>, b: Body): seq<End> {
    seq(|ends|, p requires 0 <= p < |ends| =>
      if p in list then ends[p].(sender := Issue(ends[p].sender, b)) else ends[p])
  }

  /** `b` is sent to process `p`. */
  function IssuedOn(ends: seq<End>, p: nat, b: Body): seq<End>
    requires p < |ends|
  {
    ends[p := ends[p].(sender := Issue(ends[p].sender, b))]
  }

  /** A message to oneself uses up a number. */
  function Skipped(ends: seq<End>, id: nat): seq<End>
    requires id < |ends|
  {
    ends[id := ends[id].(sender := ends[id].sender.(next := ends[id].sender.next + 1))]
  }

  /** What a frame from process `p` does to the ends. */
  function Noted(ends: seq<End>, p: nat, f: Frame): seq<End>
    requires p < |ends|
  {
    ends[p := AfterFrame(ends[p], f)]
  }

  /** One iteration of the worker towards a peer, seen from outside: what it takes from its queue and its
      entries, when it acts, and what it transmits. */
  ghost predicate Worked(before: End, plan: Timetable, now: nat, later: nat, after: End, times: map<nat, seq<nat>>,
                         resend: Option<Frame>) {
    && after.seen == before.seen && before.sender.scheduled == Contents(plan.heap)
    && Turned(before.sender, plan, now, later, after.sender, times, resend)
  }

  class PeerTable {
    const peers: seq<Peer>
    ghost var Ends: seq<End>
    ghost var Repr: set<object>

    ghost predicate Valid()
      reads this, Repr
      ensures Valid() ==> this in Repr
    {
      && this in Repr
      && (forall i :: 0 <= i < |peers| ==> peers[i] in Repr && peers[i].Repr <= Repr && this !in peers[i].Repr)
      && (forall i :: 0 <= i < |peers| ==> peers[i].Valid())
      && |Ends| == |peers| && (forall i :: 0 <= i < |peers| ==> peers[i].State == Ends[i])
      && forall i, j :: 0 <= i < j < |peers| ==> peers[i].Repr !! peers[j].Repr
    }

    constructor (n: nat)
      ensures Valid() && fresh(Repr) && |peers| == n && Ends == seq(n, _ => UNUSED)
    {
      var made, repr := NewPeers(n);
      peers, Ends := made, seq(n, _ => UNUSED);
      Repr := repr + {this};
    }

    static method NewPeers(n: nat) returns (made: seq<Peer>, ghost repr: set<object>)
      ensures |made| == n && fresh(repr)
      ensures forall i :: 0 <= i < n ==> made[i] in repr && made[i].Repr <= repr
      ensures forall i :: 0 <= i < n ==> made[i].Valid() && made[i].State == UNUSED
      ensures forall i, j :: 0 <= i < j < n ==> made[i].Repr !! made[j].Repr
    {
      if n == 0 {
        return [], {};
      }
      made, repr := NewPeers(n - 1);
      made, repr := OneMore(made, repr);
    }

    static method OneMore(before: seq<Peer>, ghost objects: set<object>)
      returns (made: seq<Peer>, ghost repr: set<object>)
      requires forall i :: 0 <= i < |before| ==> before[i] in objects && before[i].Repr <= objects
      requires forall i :: 0 <= i < |before| ==> before[i].Valid() && before[i].State == UNUSED
      requires forall i, j :: 0 <= i < j < |before| ==> before[i].Repr !! before[j].Repr
      ensures |made| == |before| + 1 && objects <= repr && fresh(repr - objects)
      ensures forall i :: 0 <= i < |made| ==> made[i] in repr && made[i].Repr <= repr
      ensures forall i :: 0 <= i < |made| ==> made[i].Valid() && made[i].State == UNUSED
      ensures forall i, j :: 0 <= i < j < |made| ==> made[i].Repr !! made[j].Repr
    {
      var peer := new Peer();
      made := before + [peer];
      repr := objects + peer.Repr;
    }

    /** What happens at one peer does not affect the others. */
    twostate lemma OthersKeep(p: nat)
      requires p < |peers| && old(Valid())
      requires forall i :: 0 <= i < |peers| && i != p ==> forall o: object :: o in old(peers[i].Repr) ==> unchanged(o)
      ensures forall i :: 0 <= i < |peers| && i != p ==>
                peers[i].Valid() && peers[i].State == old(peers[i].State) && peers[i].Repr == old(peers[i].Repr)
    {
      forall i | 0 <= i < |peers| && i != p
        ensures peers[i].Valid() && peers[i].State == old(peers[i].State) && peers[i].Repr == old(peers[i].Repr)
      {
        assert peers[i] in old(peers[i].Repr);
      }
    }

    /** What happens at the table itself does not affect its peers. */
    twostate lemma AllKeep()
      requires forall i :: 0 <= i < |peers| ==> old(peers[i].Valid())
      requires forall i :: 0 <= i < |peers| ==> forall o: object :: o in old(peers[i].Repr) ==> unchanged(o)
      ensures forall i :: 0 <= i < |peers| ==>
                peers[i].Valid() && peers[i].State == old(peers[i].State) && peers[i].Repr == old(peers[i].Repr)
    {
      forall i | 0 <= i < |peers|
        ensures peers[i].Valid() && peers[i].State == old(peers[i].State) && peers[i].Repr == old(peers[i].Repr)
      {
        assert peers[i] in old(peers[i].Repr);
      }
    }

    /** The peers after one of them changed, before the table takes note of it. */
    ghost predicate Changed(ends: seq<End>)
      reads this, peers
    {
      && |ends| == |peers| && this in Repr
      && (forall i :: 0 <= i < |peers| ==> this !in peers[i].Repr)
      && (forall i :: 0 <= i < |peers| ==> peers[i].State == ends[i])
      && forall i, j :: 0 <= i < j < |peers| ==> peers[i].Repr !! peers[j].Repr
    }

    method SendAt(receiver: nat, b: Body) returns (transmit: Frame)
      requires Valid() && receiver < |peers|
      modifies peers[receiver].Repr
      ensures Changed(IssuedOn(Ends, receiver, b))
      ensures forall i :: 0 <= i < |peers| ==> peers[i].Valid() && peers[i] in Repr && peers[i].Repr <= Repr
      ensures transmit == Frame(Ends[receiver].sender.next, b)
    {
      transmit := peers[receiver].Send(b);
      OthersKeep(receiver);
    }

    method Send(receiver: nat, b: Body) returns (transmit: Frame)
      requires Valid() && receiver < |peers|
      modifies Repr
      ensures Valid() && Repr == old(Repr) && Ends == IssuedOn(old(Ends), receiver, b)
      ensures transmit == Frame(old(Ends)[receiver].sender.next, b)
    {
      transmit := SendAt(receiver, b);
      label Done:
      Ends := IssuedOn(Ends, receiver, b);
      AllKeep@Done();
    }

    method SkipAt(receiver: nat) returns (number: nat)
      requires Valid() && receiver < |peers|
      modifies peers[receiver].Repr
      ensures Changed(Skipped(Ends, receiver))
      ensures forall i :: 0 <= i < |peers| ==> peers[i].Valid() && peers[i] in Repr && peers[i].Repr <= Repr
      ensures number == Ends[receiver].sender.next
    {
      number := peers[receiver].Skip();
      OthersKeep(receiver);
    }

    method Skip(receiver: nat) returns (number: nat)
      requires Valid() && receiver < |peers|
      modifies Repr
      ensures Valid() && Repr == old(Repr) && Ends == Skipped(old(Ends), receiver)
      ensures number == old(Ends)[receiver].sender.next
    {
      number := SkipAt(receiver);
      label Done:
      Ends := Skipped(Ends, receiver);
      AllKeep@Done();
    }

    method DeliverAt(p: nat, f: Frame) returns (handUp: bool, reply: Option<Frame>)
      requires Valid() && p < |peers|
      modifies peers[p].Repr
      ensures Changed(Noted(Ends, p, f)) && fresh(peers[p].Repr - Repr)
      ensures forall i :: 0 <= i < |peers| ==>
                peers[i].Valid() && peers[i] in Repr && peers[i].Repr <= Repr + peers[p].Repr
      ensures handUp == (IsSyn(f) && SeqNum(f) !in Ends[p].seen)
      ensures reply == if IsSyn(f) then Some(SetAck(f)) else None
    {
      handUp, reply := peers[p].Deliver(f);
      OthersKeep(p);
    }

    /** A frame arrives from process `p`. */
    method Deliver(p: nat, f: Frame) returns (handUp: bool, reply: Option<Frame>)
      requires Valid() && p < |peers|
      modifies Repr
      ensures Valid() && fresh(Repr - old(Repr)) && Ends == Noted(old(Ends), p, f)
      ensures handUp == (IsSyn(f) && SeqNum(f) !in old(Ends)[p].seen)
      ensures reply == if IsSyn(f) then Some(SetAck(f)) else None
    {
      handUp, reply := DeliverAt(p, f);
      label Done:
      Ends := Noted(Ends, p, f);
      Repr := Repr + peers[p].Repr;
      AllKeep@Done();
    }

    method WorkAt(p: nat, now: nat, later: nat) returns (resend: Option<Frame>, ghost after: End)
      requires Valid() && p < |peers| && now <= later && peers[p].MayAct(later)
      modifies peers[p].Repr
      ensures Worked(Ends[p], old(peers[p].Plan()), now, later, after, peers[p].Plan().times, resend)
      ensures Changed(Ends[p := after])
      ensures forall i :: 0 <= i < |peers| ==> peers[i].Valid() && peers[i] in Repr && peers[i].Repr <= Repr
    {
      resend := Turn(peers[p], now, later);
      after := peers[p].State;
      OthersKeep(p);
    }

    static method Turn(peer: Peer, now: nat, later: nat) returns (resend: Option<Frame>)
      requires peer.Valid() && now <= later && peer.MayAct(later)
      modifies peer.Repr
      ensures peer.Valid() && peer.Repr == old(peer.Repr)
      ensures Worked(old(peer.State), old(peer.Plan()), now, later, peer.State, peer.Plan().times, resend)
    {
      resend := peer.Work(now, later);
    }

    /** One iteration of the worker of process `p`. */
    method Work(p: nat, now: nat, later: nat) returns (resend: Option<Frame>)
      requires Valid() && p < |peers| && now <= later && peers[p].MayAct(later)
      modifies Repr
      ensures Valid() && Repr == old(Repr)
      ensures Ends == old(Ends)[p := Ends[p]]
      ensures Worked(old(Ends)[p], old(peers[p].Plan()), now, later, Ends[p], peers[p].Plan().times, resend)
    {
      ghost var after;
      resend, after := WorkAt(p, now, later);
      label Done:
      Ends := Ends[p := after];
      AllKeep@Done();
    }
  }
}
