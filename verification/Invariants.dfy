/** The invariants of `System` hold in every reachable state. */
module Invariants {
  import opened Messages
  import opened Protocol
  import opened System
  import CausalOrder
  import FiniteSets
  import Quorum

  lemma StartInv(cfg: Config, s: State)
    requires Start(cfg, s)
    ensures Inv(cfg, s)
  {
    forall p | 0 <= p < cfg.n
      ensures UpperSound(cfg, s, p)
    {
      CausalOrder.InitRepresents(cfg);
      assert Received(s, p) == {};
    }
  }

  lemma HoldersGrow(cfg: Config, s: State, s': State, k: Key)
    requires Shape(cfg, s) && Shape(cfg, s')
    requires forall p :: 0 <= p < cfg.n ==> s.procs[p].urb.pending <= s'.procs[p].urb.pending
    ensures Holders(s, k) <= Holders(s', k)
    ensures forall q :: |NearHolders(cfg, s, q, k)| <= |NearHolders(cfg, s', q, k)|
  {
    forall q
      ensures |NearHolders(cfg, s, q, k)| <= |NearHolders(cfg, s', q, k)|
    {
      FiniteSets.SubsetSize(NearHolders(cfg, s, q, k), NearHolders(cfg, s', q, k));
    }
  }

  // ------------------------------------------------------------------------------------------
  // Broadcasting
  // ------------------------------------------------------------------------------------------

  /** A broadcast adds one new key, heard from oneself only, and delivers nothing. */
  ghost predicate BroadcastEffect(p: nat, before: Proc, after: Proc, b: Body) {
    && b.originator == p && b.seqNum == before.next
    && after.urb.pending == before.urb.pending + {b.Id()}
    && after.urb.delivered == before.urb.delivered
    && (forall k :: Quorum.Acks(after.urb.ack, k) == if k == b.Id() then {p} else Quorum.Acks(before.urb.ack, k))
    && after.lcb == before.lcb.(log := before.lcb.log + [Event.Broadcast(b)])
    && after.next == before.next + 1
  }

  lemma NewKeyIsFresh(cfg: Config, s: State, p: nat, q: nat)
    requires Inv(cfg, s) && p < cfg.n && q < cfg.n
    ensures Key(p, s.procs[p].next) !in s.procs[q].urb.pending
    ensures Quorum.Acks(s.procs[q].urb.ack, Key(p, s.procs[p].next)) == {}
  {
    assert AcksSound(cfg, s, q, Key(p, s.procs[p].next));
  }

  /** Sending one's own message never delivers anything: one acknowledgement is no majority. */
  lemma BroadcastDeliversNothing(cfg: Config, s: State, p: nat)
    requires Inv(cfg, s) && p < cfg.n
    ensures !Quorum.Start(cfg.n, p, s.procs[p].urb, Key(p, s.procs[p].next)).up
    ensures BroadcastEffect(p, s.procs[p], OnBroadcast(cfg, p, s.procs[p]), NextBody(cfg, p, s.procs[p]))
  {
    var k := Key(p, s.procs[p].next);
    NewKeyIsFresh(cfg, s, p, p);
    assert AcksSound(cfg, s, p, k);
    assert {} + {p} == {p};
  }

  lemma BroadcastUrb(cfg: Config, s: State, s': State, p: nat)
    requires Inv(cfg, s) && Shape(cfg, s') && BroadcastStep(cfg, s, s', p)
    ensures UrbInv(cfg, s')
  {
    BroadcastDeliversNothing(cfg, s, p);
    var newKey := NextBody(cfg, p, s.procs[p]).Id();
    forall q, k | 0 <= q < cfg.n
      ensures AcksSound(cfg, s', q, k)
    {
      NewKeyIsFresh(cfg, s, p, q);
      assert AcksSound(cfg, s, q, k);
      HoldersGrow(cfg, s, s', k);
      if q == p && k == newKey {
        assert |{p}| == 1;
      }
    }
  }

  /** Nothing that a channel relies on is lost from one state to the other. */
  ghost predicate Carries(cfg: Config, s: State, s': State, p: nat, q: nat)
    requires Shape(cfg, s) && Shape(cfg, s') && p < cfg.n && q < cfg.n
  {
    var sender, receiver, sender', receiver' := s.procs[p].urb, s.procs[q].urb, s'.procs[p].urb, s'.procs[q].urb;
    && (forall b :: b in s.history ==> b in s'.history)
    && sender.pending <= sender'.pending
    && receiver.pending <= receiver'.pending
    && receiver.delivered <= receiver'.delivered
    && forall k :: p in Quorum.Acks(receiver.ack, k) ==>
         k in receiver'.delivered || p in Quorum.Acks(receiver'.ack, k)
  }

  lemma ChannelCarried(cfg: Config, s: State, s': State, p: nat, q: nat)
    requires Shape(cfg, s) && Shape(cfg, s') && p < cfg.n && q < cfg.n
    requires ChannelSound(cfg, s, p, q) && Carries(cfg, s, s', p, q)
    requires s'.net[p][q] == s.net[p][q]
    ensures ChannelSound(cfg, s', p, q)
  {
    var c, c' := s.net[p][q], s'.net[p][q];
    forall i | 0 <= i < |c'.issued|
      ensures Genuine(cfg, s', p, q, c'.issued[i])
    {
      assert Genuine(cfg, s, p, q, c.issued[i]);
    }
  }

  lemma ChannelExtended(cfg: Config, s: State, s': State, p: nat, q: nat, b: Body)
    requires Shape(cfg, s) && Shape(cfg, s') && p < cfg.n && q < cfg.n
    requires ChannelSound(cfg, s, p, q) && Carries(cfg, s, s', p, q)
    requires s'.net[p][q] == s.net[p][q].(issued := s.net[p][q].issued + [b])
    requires forall i :: 0 <= i < |s.net[p][q].issued| ==> s.net[p][q].issued[i].Id() != b.Id()
    requires b in s'.history && b.Id() in s'.procs[p].urb.pending && (p, q) in cfg.links
    ensures ChannelSound(cfg, s', p, q)
  {
    var c, c' := s.net[p][q], s'.net[p][q];
    assert forall i :: 0 <= i < |c.issued| ==> c'.issued[i] == c.issued[i];
  }

  lemma ChannelMarked(cfg: Config, s: State, s': State, p: nat, q: nat, i: nat)
    requires Shape(cfg, s) && Shape(cfg, s') && p < cfg.n && q < cfg.n
    requires ChannelSound(cfg, s, p, q) && Carries(cfg, s, s', p, q) && i < |s.net[p][q].issued|
    requires s'.net[p][q] == s.net[p][q].(received := s.net[p][q].received + {i})
    requires var k, receiver := s.net[p][q].issued[i].Id(), s'.procs[q].urb;
      k in receiver.pending && (k in receiver.delivered || p in Quorum.Acks(receiver.ack, k))
    ensures ChannelSound(cfg, s', p, q)
  {}

  lemma IssuedGrows(c: Channel, c': Channel, k: Key)
    requires Issued(c, k) && c.issued <= c'.issued
    ensures Issued(c', k)
  {
    var i :| 0 <= i < |c.issued| && c.issued[i].Id() == k;
    assert c'.issued[i] == c.issued[i];
  }

  lemma IssuedLast(c: Channel, b: Body)
    requires c.issued != [] && c.issued[|c.issued| - 1] == b
    ensures Issued(c, b.Id())
  {}

  lemma BroadcastNet(cfg: Config, s: State, s': State, p: nat)
    requires Inv(cfg, s) && Shape(cfg, s') && BroadcastStep(cfg, s, s', p)
    ensures NetInv(cfg, s')
  {
    BroadcastDeliversNothing(cfg, s, p);
    NewKeyIsFresh(cfg, s, p, p);
    var b := NextBody(cfg, p, s.procs[p]);
    forall a, q | 0 <= a < cfg.n && 0 <= q < cfg.n
      ensures ChannelSound(cfg, s', a, q)
    {
      assert ChannelSound(cfg, s, a, q);
      NewKeyIsFresh(cfg, s, p, q);
      assert Carries(cfg, s, s', a, q);
      if a == p && (a, q) in cfg.links {
        ChannelExtended(cfg, s, s', a, q, b);
      } else {
        ChannelCarried(cfg, s, s', a, q);
      }
    }
    forall a, q, k | 0 <= a < cfg.n && 0 <= q < cfg.n && (a, q) in cfg.links && k in s'.procs[a].urb.pending
      ensures Issued(s'.net[a][q], k)
    {
      if k in s.procs[a].urb.pending {
        IssuedGrows(s.net[a][q], s'.net[a][q], k);
      } else {
        IssuedLast(s'.net[a][q], b);
      }
    }
  }

  lemma KnownGrows(history: seq<Body>, j: nat, j': nat, more: seq<Body>, k: Key)
    requires j <= j' <= |more| && j <= |history| && history <= more && Known(history, j, k)
    ensures Known(more, j', k)
  {
    var i :| 0 <= i < j && history[i].Id() == k;
    assert more[i].Id() == k;
  }

  lemma PastGrows(cfg: Config, history: seq<Body>, j: nat, more: seq<Body>, b: Body)
    requires j <= |history| && history <= more && PastKnown(cfg, history, j, b)
    ensures PastKnown(cfg, more, j, b)
  {
    forall t: nat | t < b.seqNum
      ensures Known(more, j, Key(b.originator, t))
    {
      KnownGrows(history, j, j, more, Key(b.originator, t));
    }
    forall i, t: nat | 0 <= i < |b.vectorClock| && t < b.vectorClock[i]
      ensures Known(more, j, Key(cfg.deps[b.originator][i], t))
    {
      KnownGrows(history, j, j, more, Key(cfg.deps[b.originator][i], t));
    }
  }

  /** What a process counts as delivered has been broadcast. */
  lemma CountedIsKnown(cfg: Config, s: State, p: nat, d: nat, t: nat)
    requires Inv(cfg, s) && p < cfg.n && d < cfg.n && t < s.procs[p].lcb.clock[d]
    ensures Known(s.history, |s.history|, Key(d, t))
  {
    assert UpperSound(cfg, s, p);
    var i := CausalOrder.DeliveredEvent(cfg, s.procs[p].lcb.log, Received(s, p), d, t);
    var b := s.procs[p].lcb.log[i].body;
    assert b in s.history && b.Id() == Key(d, t);
  }

  /** What the next message of `p` depends on has been broadcast. */
  lemma NextPastKnown(cfg: Config, s: State, p: nat)
    requires Inv(cfg, s) && p < cfg.n
    ensures PastKnown(cfg, s.history, |s.history|, NextBody(cfg, p, s.procs[p]))
  {
    var b := NextBody(cfg, p, s.procs[p]);
    forall i, t: nat | 0 <= i < |b.vectorClock| && t < b.vectorClock[i]
      ensures Known(s.history, |s.history|, Key(cfg.deps[b.originator][i], t))
    {
      CountedIsKnown(cfg, s, p, cfg.deps[p][i], t);
    }
  }

  lemma BroadcastHistory(cfg: Config, s: State, s': State, p: nat)
    requires Inv(cfg, s) && Shape(cfg, s') && BroadcastStep(cfg, s, s', p)
    ensures HistoryInv(cfg, s')
  {
    var b := NextBody(cfg, p, s.procs[p]);
    NextPastKnown(cfg, s, p);
    forall j | 0 <= j < |s'.history|
      ensures PastKnown(cfg, s'.history, j, s'.history[j])
    {
      PastGrows(cfg, s.history, j, s'.history, s'.history[j]);
    }
    forall x | x in s'.history
      ensures x.seqNum < s'.procs[x.originator].next
    {
      assert x in s.history || x == b;
    }
    forall i | 0 <= i < |s.history|
      ensures s.history[i].Id() != b.Id()
    {
      assert s.history[i] in s.history;
    }
    forall q, t: nat | 0 <= q < cfg.n && t < s'.procs[q].next
      ensures Known(s'.history, |s'.history|, Key(q, t)) && Key(q, t) in s'.procs[q].urb.pending
    {
      BroadcastIsKnown(cfg, s, s', p, q, t);
    }
  }

  lemma BroadcastIsKnown(cfg: Config, s: State, s': State, p: nat, q: nat, t: nat)
    requires Inv(cfg, s) && Shape(cfg, s') && BroadcastStep(cfg, s, s', p) && q < cfg.n && t < s'.procs[q].next
    ensures Known(s'.history, |s'.history|, Key(q, t)) && Key(q, t) in s'.procs[q].urb.pending
  {
    BroadcastDeliversNothing(cfg, s, p);
    if t < s.procs[q].next {
      KnownGrows(s.history, |s.history|, |s'.history|, s'.history, Key(q, t));
    } else {
      assert s'.history[|s.history|].Id() == Key(q, t);
    }
  }

  lemma ReceivedUnchanged(cfg: Config, s: State, s': State, p: nat, q: nat)
    requires Inv(cfg, s) && Shape(cfg, s') && BroadcastStep(cfg, s, s', p) && q < cfg.n
    ensures Received(s', q) == Received(s, q)
  {
    BroadcastDeliversNothing(cfg, s, p);
    NewKeyIsFresh(cfg, s, p, q);
    assert AcksSound(cfg, s, q, Key(p, s.procs[p].next));
  }

  lemma LogBroadcast(cfg: Config, lcb: CausalOrder.State, b: Body, received: set<Body>)
    requires CausalOrder.Represents(cfg, lcb, received) && CausalOrder.Stuck(cfg, lcb)
    ensures var lcb' := lcb.(log := lcb.log + [Event.Broadcast(b)]);
      CausalOrder.Represents(cfg, lcb', received) && CausalOrder.Stuck(cfg, lcb')
  {
    var lcb' := lcb.(log := lcb.log + [Event.Broadcast(b)]);
    CausalOrder.OrderedSnoc(cfg, lcb.log, received, Event.Broadcast(b));
    forall o | 0 <= o < cfg.n
      ensures lcb'.clock[o] == Delivered(lcb'.log, o)
    {
      DeliveredSnoc(lcb.log, Event.Broadcast(b), o);
    }
    forall o | 0 <= o < cfg.n
      ensures !CausalOrder.Ready(cfg, lcb', o)
    {
      assert !CausalOrder.Ready(cfg, lcb, o);
    }
  }

  lemma BroadcastUpper(cfg: Config, s: State, s': State, p: nat)
    requires Inv(cfg, s) && Shape(cfg, s') && BroadcastStep(cfg, s, s', p)
    ensures UpperInv(cfg, s')
  {
    forall q | 0 <= q < cfg.n
      ensures UpperSound(cfg, s', q)
    {
      assert UpperSound(cfg, s, q);
      ReceivedUnchanged(cfg, s, s', p, q);
      if q == p {
        BroadcastUpperOwn(cfg, s, s', p);
      }
    }
  }

  lemma BroadcastUpperOwn(cfg: Config, s: State, s': State, p: nat)
    requires Inv(cfg, s) && Shape(cfg, s') && BroadcastStep(cfg, s, s', p)
    requires Received(s', p) == Received(s, p)
    ensures UpperSound(cfg, s', p)
  {
    assert UpperSound(cfg, s, p);
    BroadcastDeliversNothing(cfg, s, p);
    var b := NextBody(cfg, p, s.procs[p]);
    var log, log' := s.procs[p].lcb.log, s'.procs[p].lcb.log;
    LogBroadcast(cfg, s.procs[p].lcb, b, Received(s, p));
    BroadcastsSnoc(log, Event.Broadcast(b));
    assert b in s'.history;
    forall j | 0 <= j < |log'| && log'[j].Broadcast?
      ensures log'[j].body in s'.history && BroadcastAfter(cfg, log'[..j], p, log'[j].body)
    {
      assert log'[..j] == log[..j];
      assert log[..|log|] == log;
    }
  }

  lemma BroadcastKeeps(cfg: Config, s: State, s': State, p: nat)
    requires Inv(cfg, s) && Shape(cfg, s') && BroadcastStep(cfg, s, s', p)
    ensures Inv(cfg, s')
  {
    BroadcastUrb(cfg, s, s', p);
    BroadcastNet(cfg, s, s', p);
    BroadcastHistory(cfg, s, s', p);
    BroadcastUpper(cfg, s, s', p);
  }

  // ------------------------------------------------------------------------------------------
  // Receiving
  // ------------------------------------------------------------------------------------------

  /** What a reaction does to the acknowledgements, key by key. */
  lemma ReactAcks(n: nat, id: nat, st: Quorum.State, sender: nat, k: Key)
    ensures var r := Quorum.React(n, id, st, sender, k);
      && (forall k' :: k' != k ==> Quorum.Acks(r.st.ack, k') == Quorum.Acks(st.ack, k'))
      && (r.up ==> Quorum.Acks(r.st.ack, k) == {})
      && (k !in st.delivered && !r.up ==>
            && Quorum.Acks(r.st.ack, k) == Quorum.Acks(st.ack, k) + {sender} + (if k in st.pending then {} else {id})
            && |Quorum.Acks(r.st.ack, k)| <= n / 2)
  {}

  /** A step that is a reception, with the facts about it that every invariant needs. */
  ghost predicate Reception(cfg: Config, s: State, s': State, p: nat, q: nat, i: nat) {
    && Inv(cfg, s) && Shape(cfg, s') && ReceiveStep(cfg, s, s', p, q, i)
    && var b := s.net[p][q].issued[i];
    && b in s.history && b.Id() in s.procs[p].urb.pending && (p, q) in cfg.links
    && s'.procs[q].urb == Quorum.React(cfg.n, q, s.procs[q].urb, p, b.Id()).st
    && forall a :: 0 <= a < cfg.n ==>
         && s.procs[a].urb.pending <= s'.procs[a].urb.pending
         && s.procs[a].next == s'.procs[a].next
         && (a != q ==> s'.procs[a] == s.procs[a])
  }

  lemma IsReception(cfg: Config, s: State, s': State, p: nat, q: nat, i: nat)
    requires Inv(cfg, s) && Shape(cfg, s') && ReceiveStep(cfg, s, s', p, q, i)
    ensures Reception(cfg, s, s', p, q, i)
  {
    assert ChannelSound(cfg, s, p, q);
  }

  /** A majority of acknowledgements is a majority of holders nearby. */
  lemma HeardHold(cfg: Config, s: State, s': State, p: nat, q: nat, i: nat)
    requires Reception(cfg, s, s', p, q, i)
    ensures var k := s.net[p][q].issued[i].Id(); var st := s.procs[q].urb;
      k !in st.delivered ==>
        && Quorum.Acks(st.ack, k) + {p} + {q} <= NearHolders(cfg, s', q, k)
        && (Quorum.React(cfg.n, q, st, p, k).up ==> |NearHolders(cfg, s', q, k)| > cfg.n / 2)
  {
    var k, st := s.net[p][q].issued[i].Id(), s.procs[q].urb;
    if k !in st.delivered {
      HeardAreNear(cfg, s, s', p, q, i);
      var near, acks := NearHolders(cfg, s', q, k), Quorum.Acks(st.ack, k);
      FiniteSets.SubsetSize(acks + {p}, near);
      FiniteSets.SubsetSize(acks + {p} + {q}, near);
    }
  }

  lemma HeardAreNear(cfg: Config, s: State, s': State, p: nat, q: nat, i: nat)
    requires Reception(cfg, s, s', p, q, i) && s.net[p][q].issued[i].Id() !in s.procs[q].urb.delivered
    ensures var k := s.net[p][q].issued[i].Id();
      && Quorum.Acks(s.procs[q].urb.ack, k) <= NearHolders(cfg, s', q, k)
      && p in NearHolders(cfg, s', q, k) && q in NearHolders(cfg, s', q, k)
  {
    var k := s.net[p][q].issued[i].Id();
    assert AcksSound(cfg, s, q, k);
    HoldersGrow(cfg, s, s', k);
  }

  lemma ReceiveUrb(cfg: Config, s: State, s': State, p: nat, q: nat, i: nat)
    requires Reception(cfg, s, s', p, q, i)
    ensures UrbInv(cfg, s')
  {
    forall a, k | 0 <= a < cfg.n
      ensures AcksSound(cfg, s', a, k)
    {
      assert AcksSound(cfg, s, a, k);
      HoldersGrow(cfg, s, s', k);
      if a == q {
        ReceiveUrbOwn(cfg, s, s', p, q, i, k);
      }
    }
  }

  lemma ReceiveUrbOwn(cfg: Config, s: State, s': State, p: nat, q: nat, i: nat, k: Key)
    requires Reception(cfg, s, s', p, q, i)
    ensures AcksSound(cfg, s', q, k)
  {
    var b := s.net[p][q].issued[i];
    assert AcksSound(cfg, s, q, k);
    HoldersGrow(cfg, s, s', k);
    ReactAcks(cfg.n, q, s.procs[q].urb, p, b.Id());
    if k == b.Id() {
      HeardHold(cfg, s, s', p, q, i);
    }
  }

  /** After handing up, before relaying. */
  ghost function HandedUp(s: State, s': State, p: nat, q: nat, i: nat): State
    requires p < |s.net| && q < |s.net[p]|
  {
    s'.(net := HandUp(s.net, p, q, i))
  }

  lemma ReceptionCarries(cfg: Config, s: State, s': State, p: nat, q: nat, i: nat, a: nat, c: nat)
    requires Reception(cfg, s, s', p, q, i) && a < cfg.n && c < cfg.n
    ensures Carries(cfg, s, s', a, c)
  {
    ReactAcks(cfg.n, q, s.procs[q].urb, p, s.net[p][q].issued[i].Id());
  }

  lemma HandUpChannels(cfg: Config, s: State, s': State, p: nat, q: nat, i: nat, a: nat, c: nat)
    requires Reception(cfg, s, s', p, q, i) && a < cfg.n && c < cfg.n
    ensures Shape(cfg, HandedUp(s, s', p, q, i)) && ChannelSound(cfg, HandedUp(s, s', p, q, i), a, c)
  {
    var mid := HandedUp(s, s', p, q, i);
    assert Shape(cfg, mid);
    assert ChannelSound(cfg, s, a, c);
    ReceptionCarries(cfg, s, s', p, q, i, a, c);
    assert Carries(cfg, s, mid, a, c);
    if a == p && c == q {
      ReceptionRecorded(cfg, s, s', p, q, i);
      ChannelMarked(cfg, s, mid, a, c, i);
    } else {
      assert mid.net[a][c] == s.net[a][c];
      ChannelCarried(cfg, s, mid, a, c);
    }
  }

  lemma ReceptionRecorded(cfg: Config, s: State, s': State, p: nat, q: nat, i: nat)
    requires Reception(cfg, s, s', p, q, i)
    ensures var k, receiver := s.net[p][q].issued[i].Id(), s'.procs[q].urb;
      k in receiver.pending && (k in receiver.delivered || p in Quorum.Acks(receiver.ack, k))
  {
    var k := s.net[p][q].issued[i].Id();
    ReactAcks(cfg.n, q, s.procs[q].urb, p, k);
    assert AcksSound(cfg, s, q, k);
  }

  lemma ReceiveChannel(cfg: Config, s: State, s': State, p: nat, q: nat, i: nat, a: nat, c: nat)
    requires Reception(cfg, s, s', p, q, i) && a < cfg.n && c < cfg.n
    ensures ChannelSound(cfg, s', a, c)
  {
    var b := s.net[p][q].issued[i];
    var mid := HandedUp(s, s', p, q, i);
    HandUpChannels(cfg, s, s', p, q, i, a, c);
    assert ChannelSound(cfg, s, a, c);
    if Relays(s.procs[q], b.Id()) && a == q && (a, c) in cfg.links {
      ChannelExtended(cfg, mid, s', a, c, b);
    } else {
      ChannelCarried(cfg, mid, s', a, c);
    }
  }

  lemma ReceiveNet(cfg: Config, s: State, s': State, p: nat, q: nat, i: nat)
    requires Reception(cfg, s, s', p, q, i)
    ensures NetInv(cfg, s')
  {
    var b := s.net[p][q].issued[i];
    forall a, c | 0 <= a < cfg.n && 0 <= c < cfg.n
      ensures ChannelSound(cfg, s', a, c)
    {
      ReceiveChannel(cfg, s, s', p, q, i, a, c);
    }
    forall a, c, k | 0 <= a < cfg.n && 0 <= c < cfg.n && (a, c) in cfg.links && k in s'.procs[a].urb.pending
      ensures Issued(s'.net[a][c], k)
    {
      assert s.net[a][c].issued <= s'.net[a][c].issued;
      if k in s.procs[a].urb.pending {
        IssuedGrows(s.net[a][c], s'.net[a][c], k);
      } else {
        IssuedLast(s'.net[a][c], b);
      }
    }
  }

  lemma ReceiveHistory(cfg: Config, s: State, s': State, p: nat, q: nat, i: nat)
    requires Reception(cfg, s, s', p, q, i)
    ensures HistoryInv(cfg, s')
  {
    forall a, t: nat | 0 <= a < cfg.n && t < s'.procs[a].next
      ensures Known(s'.history, |s'.history|, Key(a, t)) && Key(a, t) in s'.procs[a].urb.pending
    {
      assert t < s.procs[a].next;
    }
  }

  lemma {:induction false} BroadcastsOfDeliveries(log: seq<Event>, more: seq<Event>)
    requires log <= more && forall e :: e in more[|log|..] ==> e.Deliver?
    ensures Broadcasts(more) == Broadcasts(log)
    decreases |more|
  {
    if |log| == |more| {
      assert log == more;
    } else {
      var front := more[..|more| - 1];
      assert more[|more| - 1] in more[|log|..];
      assert forall e :: e in front[|log|..] ==> e in more[|log|..];
      BroadcastsOfDeliveries(log, front);
    }
  }

  lemma TailDelivers(log: seq<Event>, more: seq<Event>, j: nat)
    requires |log| <= j < |more| && forall e :: e in more[|log|..] ==> e.Deliver?
    ensures more[j].Deliver?
  {
    assert more[j] == more[|log|..][j - |log|];
  }

  lemma BroadcastsRemain(cfg: Config, s: State, s': State, q: nat)
    requires Shape(cfg, s) && Shape(cfg, s') && q < cfg.n && UpperSound(cfg, s, q)
    requires s'.history == s.history && s'.procs[q].next == s.procs[q].next
    requires var log, log' := s.procs[q].lcb.log, s'.procs[q].lcb.log;
      log <= log' && forall e :: e in log'[|log|..] ==> e.Deliver?
    requires CausalOrder.Represents(cfg, s'.procs[q].lcb, Received(s', q)) && CausalOrder.Stuck(cfg, s'.procs[q].lcb)
    ensures UpperSound(cfg, s', q)
  {
    var log, log' := s.procs[q].lcb.log, s'.procs[q].lcb.log;
    BroadcastsOfDeliveries(log, log');
    forall j | 0 <= j < |log'| && log'[j].Broadcast?
      ensures log'[j].body in s'.history && BroadcastAfter(cfg, log'[..j], q, log'[j].body)
    {
      if j >= |log| {
        TailDelivers(log, log', j);
        assert false;
      }
      assert log'[..j] == log[..j];
    }
  }

  lemma ReceiveUpper(cfg: Config, s: State, s': State, p: nat, q: nat, i: nat)
    requires Reception(cfg, s, s', p, q, i)
    ensures UpperInv(cfg, s')
  {
    forall a | 0 <= a < cfg.n
      ensures UpperSound(cfg, s', a)
    {
      assert UpperSound(cfg, s, a);
      if a == q {
        ReceiveUpperOwn(cfg, s, s', p, q, i);
      } else {
        assert Received(s', a) == Received(s, a);
      }
    }
  }

  lemma SameKeySameMessage(cfg: Config, s: State, a: Body, b: Body)
    requires Shape(cfg, s) && HistoryInv(cfg, s) && a in s.history && b in s.history && a.Id() == b.Id()
    ensures a == b
  {
    var i :| 0 <= i < |s.history| && s.history[i] == a;
    var j :| 0 <= j < |s.history| && s.history[j] == b;
    assert s.history[i].Id() == s.history[j].Id();
  }

  lemma ReceivedOneMore(cfg: Config, s: State, s': State, p: nat, q: nat, i: nat)
    requires Reception(cfg, s, s', p, q, i)
    requires Quorum.React(cfg.n, q, s.procs[q].urb, p, s.net[p][q].issued[i].Id()).up
    ensures Received(s', q) == Received(s, q) + {s.net[p][q].issued[i]}
    ensures forall a :: a in Received(s, q) ==> a.Id() != s.net[p][q].issued[i].Id()
  {
    var b := s.net[p][q].issued[i];
    forall a | a in s.history && a.Id() == b.Id()
      ensures a == b
    {
      SameKeySameMessage(cfg, s, a, b);
    }
  }

  lemma ReceiveUpperOwn(cfg: Config, s: State, s': State, p: nat, q: nat, i: nat)
    requires Reception(cfg, s, s', p, q, i)
    ensures UpperSound(cfg, s', q)
  {
    assert UpperSound(cfg, s, q);
    var b := s.net[p][q].issued[i];
    if Quorum.React(cfg.n, q, s.procs[q].urb, p, b.Id()).up {
      ReceivedOneMore(cfg, s, s', p, q, i);
      CausalOrder.AcceptKeeps(cfg, s.procs[q].lcb, Received(s, q), b);
    } else {
      assert s'.procs[q].urb.delivered == s.procs[q].urb.delivered;
      assert Received(s', q) == Received(s, q);
    }
    BroadcastsRemain(cfg, s, s', q);
  }

  lemma ReceiveKeeps(cfg: Config, s: State, s': State, p: nat, q: nat, i: nat)
    requires Inv(cfg, s) && Shape(cfg, s') && ReceiveStep(cfg, s, s', p, q, i)
    ensures Inv(cfg, s')
  {
    IsReception(cfg, s, s', p, q, i);
    ReceiveUrb(cfg, s, s', p, q, i);
    ReceiveNet(cfg, s, s', p, q, i);
    ReceiveHistory(cfg, s, s', p, q, i);
    ReceiveUpper(cfg, s, s', p, q, i);
  }

  lemma CrashKeeps(cfg: Config, s: State, s': State, p: nat)
    requires Inv(cfg, s) && Shape(cfg, s') && CrashStep(s, s', p)
    ensures Inv(cfg, s')
  {
    forall q, k | 0 <= q < cfg.n
      ensures AcksSound(cfg, s', q, k)
    {
      assert AcksSound(cfg, s, q, k);
      HoldersGrow(cfg, s, s', k);
    }
    forall q | 0 <= q < cfg.n
      ensures UpperSound(cfg, s', q)
    {
      assert UpperSound(cfg, s, q);
      assert Received(s', q) == Received(s, q);
    }
    forall a, q | 0 <= a < cfg.n && 0 <= q < cfg.n
      ensures ChannelSound(cfg, s', a, q)
    {
      assert ChannelSound(cfg, s, a, q);
    }
  }

  /** Main result: one step of the whole system keeps every invariant. */
  lemma NextKeeps(cfg: Config, s: State, s': State)
    requires Inv(cfg, s) && Next(cfg, s, s')
    ensures Inv(cfg, s')
  {
    if p :| BroadcastStep(cfg, s, s', p) {
      BroadcastKeeps(cfg, s, s', p);
    } else if p, q, i :| ReceiveStep(cfg, s, s', p, q, i) {
      ReceiveKeeps(cfg, s, s', p, q, i);
    } else if p :| CrashStep(s, s', p) {
      CrashKeeps(cfg, s, s', p);
    }
  }
}
