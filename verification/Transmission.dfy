/** What the wires hold: everything issued was transmitted, everything handed up was acknowledged. With it
    come all invariants of a reachable state, and how many numbers a link has used. */
module Transmission {
  import opened Messages
  import opened Protocol
  import opened LossySystem
  import FiniteSets
  import Hearing
  import Invariants
  import Link
  import System

  /** Everything issued was transmitted at least once, and everything handed up was acknowledged. */
  ghost predicate Transmitted(l: Link.State) {
    && (forall i :: 0 <= i < |l.issued| ==> Link.Frame(i, l.issued[i]) in l.wire)
    && forall i :: i in l.delivered ==> i < |l.issued| && Link.SetAck(Link.Frame(i, l.issued[i])) in l.acks
  }

  lemma SendTransmits(l: Link.State, l': Link.State, b: Body)
    requires Link.Inv(l) && Transmitted(l) && Link.IsSend(l, l', b)
    ensures Transmitted(l')
  {
    forall i | 0 <= i < |l'.issued|
      ensures Link.Frame(i, l'.issued[i]) in l'.wire
    {
      if i < |l.issued| {
        assert Link.Frame(i, l.issued[i]) in l.wire;
      }
    }
  }

  lemma ReceiveAcknowledges(l: Link.State, l': Link.State, f: Link.Frame)
    requires Link.Inv(l) && Transmitted(l) && Link.IsReceive(l, l', f)
    ensures Transmitted(l')
  {
    Link.AckEncoding(f);
    Link.ReceiveKeeps(l, l', f);
  }

  lemma InternalTransmits(l: Link.State, l': Link.State)
    requires Transmitted(l) && Link.IsInternal(l, l')
    ensures Transmitted(l')
  {}

  ghost predicate AllTransmitted(cfg: Config, links: seq<seq<Link.State>>)
    requires |links| == cfg.n && forall p :: 0 <= p < cfg.n ==> |links[p]| == cfg.n
  {
    forall p, q :: 0 <= p < cfg.n && 0 <= q < cfg.n ==> Transmitted(links[p][q])
  }

  ghost predicate Good(cfg: Config, s: State) {
    && Shape(cfg, s) && LinksInv(cfg, s.links) && AllTransmitted(cfg, s.links)
    && System.Inv(cfg, Abs(cfg, s)) && Hearing.HearingInv(cfg, Abs(cfg, s))
  }

  lemma FanoutTransmits(cfg: Config, links: seq<seq<Link.State>>, links': seq<seq<Link.State>>, p: nat, b: Body)
    requires |links| == |links'| == cfg.n
    requires forall a :: 0 <= a < cfg.n ==> |links[a]| == |links'[a]| == cfg.n
    requires LinksInv(cfg, links) && AllTransmitted(cfg, links) && Fanout(cfg, links, links', p, b)
    ensures AllTransmitted(cfg, links')
  {
    forall a, q | 0 <= a < cfg.n && 0 <= q < cfg.n
      ensures Transmitted(links'[a][q])
    {
      assert Transmitted(links[a][q]);
      if a == p && (a, q) in cfg.links {
        SendTransmits(links[a][q], links'[a][q], b);
      }
    }
  }

  lemma ArrivedTransmits(cfg: Config, links: seq<seq<Link.State>>, p: nat, q: nat, f: Link.Frame)
    requires |links| == cfg.n && forall a :: 0 <= a < cfg.n ==> |links[a]| == cfg.n
    requires p < cfg.n && q < cfg.n && LinksInv(cfg, links) && AllTransmitted(cfg, links)
    requires f in links[p][q].wire && Link.IsSyn(f)
    ensures AllTransmitted(cfg, Arrived(links, p, q, f))
  {
    var links' := Arrived(links, p, q, f);
    ReceiveAcknowledges(links[p][q], Link.Receive(links[p][q], f), f);
    forall a, c | 0 <= a < cfg.n && 0 <= c < cfg.n
      ensures Transmitted(links'[a][c])
    {
      if a == p && c == q {
        assert links'[a][c] == Link.Receive(links[p][q], f);
      } else {
        assert links'[a][c] == links[a][c];
      }
    }
  }

  lemma ArrivalOnLinks(cfg: Config, s: State, s': State, p: nat, q: nat, f: Link.Frame) returns (relayed: bool)
    requires Shape(cfg, s) && Shape(cfg, s') && LinksInv(cfg, s.links) && ArrivalStep(cfg, s, s', p, q, f)
    ensures var arrived := Arrived(s.links, p, q, f);
      && LinksInv(cfg, arrived)
      && if relayed then Fanout(cfg, arrived, s'.links, q, f.body) else s'.links == arrived
  {
    ArrivedRefines(cfg, s, p, q, f);
    relayed := Link.SeqNum(f) !in s.links[p][q].delivered && Relays(s.procs[q], f.body.Id());
  }

  lemma RelayTransmits(cfg: Config, links: seq<seq<Link.State>>, links': seq<seq<Link.State>>, p: nat, q: nat,
                       f: Link.Frame, relayed: bool)
    requires |links| == |links'| == cfg.n
    requires forall a :: 0 <= a < cfg.n ==> |links[a]| == |links'[a]| == cfg.n
    requires p < cfg.n && q < cfg.n && LinksInv(cfg, links) && AllTransmitted(cfg, links)
    requires f in links[p][q].wire && Link.IsSyn(f) && LinksInv(cfg, Arrived(links, p, q, f))
    requires var arrived := Arrived(links, p, q, f);
      if relayed then Fanout(cfg, arrived, links', q, f.body) else links' == arrived
    ensures AllTransmitted(cfg, links')
  {
    ArrivedTransmits(cfg, links, p, q, f);
    if relayed {
      FanoutTransmits(cfg, Arrived(links, p, q, f), links', q, f.body);
    }
  }

  lemma ArrivalTransmits(cfg: Config, s: State, s': State, p: nat, q: nat, f: Link.Frame)
    requires Shape(cfg, s) && Shape(cfg, s') && LinksInv(cfg, s.links) && AllTransmitted(cfg, s.links)
    requires ArrivalStep(cfg, s, s', p, q, f)
    ensures AllTransmitted(cfg, s'.links)
  {
    var relayed := ArrivalOnLinks(cfg, s, s', p, q, f);
    RelayTransmits(cfg, s.links, s'.links, p, q, f, relayed);
  }

  lemma LinkStepTransmits(cfg: Config, s: State, s': State, p: nat, q: nat)
    requires Shape(cfg, s) && Shape(cfg, s') && AllTransmitted(cfg, s.links) && LinkStep(cfg, s, s', p, q)
    ensures AllTransmitted(cfg, s'.links)
  {
    assert Transmitted(s.links[p][q]);
    InternalTransmits(s.links[p][q], s'.links[p][q]);
    forall a, c | 0 <= a < cfg.n && 0 <= c < cfg.n
      ensures Transmitted(s'.links[a][c])
    {
      if a != p || c != q {
        assert s'.links[a][c] == s.links[a][c];
      }
    }
  }

  lemma BroadcastTransmits(cfg: Config, s: State, s': State, p: nat)
    requires Shape(cfg, s) && Shape(cfg, s') && LinksInv(cfg, s.links) && AllTransmitted(cfg, s.links)
    requires BroadcastStep(cfg, s, s', p)
    ensures AllTransmitted(cfg, s'.links)
  {
    FanoutTransmits(cfg, s.links, s'.links, p, NextBody(cfg, p, s.procs[p]));
  }

  lemma NextTransmits(cfg: Config, s: State, s': State)
    requires Shape(cfg, s) && LinksInv(cfg, s.links) && AllTransmitted(cfg, s.links) && Next(cfg, s, s')
    ensures AllTransmitted(cfg, s'.links)
  {
    if p: nat :| BroadcastStep(cfg, s, s', p) {
      BroadcastTransmits(cfg, s, s', p);
    } else if p: nat, q: nat, f :| ArrivalStep(cfg, s, s', p, q, f) {
      ArrivalTransmits(cfg, s, s', p, q, f);
    } else if p: nat, q: nat :| LinkStep(cfg, s, s', p, q) {
      LinkStepTransmits(cfg, s, s', p, q);
    } else {
      var p: nat :| CrashStep(s, s', p);
    }
  }

  lemma NextGood(cfg: Config, s: State, s': State)
    requires Good(cfg, s) && Next(cfg, s, s')
    ensures Good(cfg, s')
  {
    NextTransmits(cfg, s, s');
    NextRefines(cfg, s, s');
    Hearing.NextHearing(cfg, Abs(cfg, s), Abs(cfg, s'));
    Invariants.NextKeeps(cfg, Abs(cfg, s), Abs(cfg, s'));
  }

  lemma StartGood(cfg: Config, s: State)
    requires Start(cfg, s)
    ensures Good(cfg, s)
  {
    StartRefines(cfg, s);
    Hearing.StartHearing(cfg, Abs(cfg, s));
    Invariants.StartInv(cfg, Abs(cfg, s));
  }

  lemma {:induction false} ExecutionGood(cfg: Config, run: seq<State>)
    requires Execution(cfg, run)
    ensures Good(cfg, run[|run| - 1])
  {
    if |run| == 1 {
      StartGood(cfg, run[0]);
    } else {
      ExecutionFront(cfg, run);
      ExecutionGood(cfg, run[..|run| - 1]);
      NextGood(cfg, run[|run| - 2], run[|run| - 1]);
    }
  }

  lemma ReachableGood(cfg: Config, s: State)
    requires Reachable(cfg, s)
    ensures Good(cfg, s)
  {
    var run :| Execution(cfg, run) && run[|run| - 1] == s;
    ExecutionGood(cfg, run);
  }

  // ------------------------------------------------------------------------------------------
  // How many messages there are
  // ------------------------------------------------------------------------------------------

  /** Every link carries each message at most once, so its numbers stay below the number of messages. */
  lemma IssuedBound(cfg: Config, s: State, p: nat, q: nat)
    requires Good(cfg, s) && p < cfg.n && q < cfg.n
    ensures |s.links[p][q].issued| <= |s.history|
    ensures s.links[p][q].sender.next == |s.links[p][q].issued|
  {
    var issued := s.links[p][q].issued;
    assert System.ChannelSound(cfg, Abs(cfg, s), p, q) && Link.Inv(s.links[p][q]);
    FiniteSets.ElementsSize(issued);
    FiniteSets.ElementsSize(s.history);
    FiniteSets.SubsetSize(FiniteSets.Elements(issued), FiniteSets.Elements(s.history));
  }

  /** All keys with an originator below `n` and a number below `m`. */
  ghost function Keys(n: nat, m: nat): set<Key> {
    set o, t | o in FiniteSets.Range(0, n) && t in FiniteSets.Range(0, m) :: Key(o, t)
  }

  lemma {:induction false} KeysSize(n: nat, m: nat)
    ensures |Keys(n, m)| <= n * m
  {
    if n == 0 {
      assert Keys(n, m) == {};
    } else {
      var row := Keys(n, m) - Keys(n - 1, m);
      KeysSize(n - 1, m);
      FiniteSets.InjectionSize(row, FiniteSets.Range(0, m), (k: Key) => k.seqNum);
      assert Keys(n, m) == Keys(n - 1, m) + row;
      OneRowMore(n, m);
    }
  }

  lemma OneRowMore(n: nat, m: nat)
    requires n >= 1
    ensures n * m == (n - 1) * m + m
  {}

  ghost function Ids(history: seq<Body>): seq<Key> {
    seq(|history|, i requires 0 <= i < |history| => history[i].Id())
  }

  /** While no process has broadcast more than `m` messages, there are at most `n * m`. */
  lemma HistoryBound(cfg: Config, s: State, m: nat)
    requires Good(cfg, s) && forall p :: 0 <= p < cfg.n ==> s.procs[p].next <= m
    ensures |s.history| <= cfg.n * m
  {
    assert System.HistoryInv(cfg, Abs(cfg, s));
    var ids := Ids(s.history);
    forall k | k in FiniteSets.Elements(ids)
      ensures k in Keys(cfg.n, m)
    {
      var i :| 0 <= i < |s.history| && ids[i] == k;
      assert s.history[i] in s.history;
      assert k == Key(k.originator, k.seqNum);
    }
    FiniteSets.ElementsSize(ids);
    FiniteSets.SubsetSize(FiniteSets.Elements(ids), Keys(cfg.n, m));
    KeysSize(cfg.n, m);
  }
}
