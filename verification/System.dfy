/** All processes together, over channels that hand up every message at most once and lose none while
    both ends are alive. A step is one iteration of one main loop, or a crash. */
module System {
  import opened Messages
  import opened Protocol
  import CausalOrder
  import Quorum

  /** Everything issued from one process to another, and which of it was handed up there. */
  datatype Channel = Channel(issued: seq<Body>, received: set<nat>)

  /** `history` lists all messages in the order in which they were broadcast; no process sees it. */
  datatype State = State(procs: seq<Proc>, net: seq<seq<Channel>>, history: seq<Body>, crashed: set<nat>)

  ghost predicate Shape(cfg: Config, s: State) {
    && cfg.Valid()
    && |s.procs| == |s.net| == cfg.n
    && (forall p :: 0 <= p < cfg.n ==> |s.net[p]| == cfg.n)
    && (forall p :: 0 <= p < cfg.n ==> CausalOrder.WellFormed(cfg, s.procs[p].lcb))
    && (forall b :: b in s.history ==> cfg.Admits(b))
    && forall p, q, b :: 0 <= p < cfg.n && 0 <= q < cfg.n && b in s.net[p][q].issued ==> cfg.Admits(b)
  }

  ghost predicate Start(cfg: Config, s: State) {
    && Shape(cfg, s)
    && (forall p :: 0 <= p < cfg.n ==> s.procs[p] == Init(cfg.n))
    && (forall p, q :: 0 <= p < cfg.n && 0 <= q < cfg.n ==> s.net[p][q] == Channel([], {}))
    && s.history == [] && s.crashed == {}
  }

  /** `b` is issued from `p` on every link of `p`. */
  ghost predicate Fanout(cfg: Config, net: seq<seq<Channel>>, net': seq<seq<Channel>>, p: nat, b: Body)
    requires |net| == |net'| == cfg.n
    requires forall a :: 0 <= a < cfg.n ==> |net[a]| == |net'[a]| == cfg.n
  {
    forall a, q :: 0 <= a < cfg.n && 0 <= q < cfg.n ==>
      net'[a][q] == if a == p && (a, q) in cfg.links then net[a][q].(issued := net[a][q].issued + [b]) else net[a][q]
  }

  /** Index `i` of the channel from `p` to `q` is handed up. */
  function HandUp(net: seq<seq<Channel>>, p: nat, q: nat, i: nat): seq<seq<Channel>>
    requires p < |net| && q < |net[p]|
  {
    net[p := net[p][q := net[p][q].(received := net[p][q].received + {i})]]
  }

  ghost predicate BroadcastStep(cfg: Config, s: State, s': State, p: nat)
    requires Shape(cfg, s) && Shape(cfg, s')
  {
    && p < cfg.n && p !in s.crashed
    && var b := NextBody(cfg, p, s.procs[p]);
    && s'.procs == s.procs[p := OnBroadcast(cfg, p, s.procs[p])]
    && Fanout(cfg, s.net, s'.net, p, b)
    && s'.history == s.history + [b]
    && s'.crashed == s.crashed
  }

  ghost predicate ReceiveStep(cfg: Config, s: State, s': State, p: nat, q: nat, i: nat)
    requires Shape(cfg, s) && Shape(cfg, s')
  {
    && p < cfg.n && q < cfg.n && q !in s.crashed
    && i < |s.net[p][q].issued| && i !in s.net[p][q].received
    && var b := s.net[p][q].issued[i];
    && s'.procs == s.procs[q := OnReceive(cfg, q, s.procs[q], p, b)]
    && (if Relays(s.procs[q], b.Id()) then Fanout(cfg, HandUp(s.net, p, q, i), s'.net, q, b)
        else s'.net == HandUp(s.net, p, q, i))
    && s'.history == s.history
    && s'.crashed == s.crashed
  }

  ghost predicate CrashStep(s: State, s': State, p: nat) {
    p < |s.procs| && s' == s.(crashed := s.crashed + {p})
  }

  ghost predicate Next(cfg: Config, s: State, s': State) {
    && Shape(cfg, s) && Shape(cfg, s')
    && (|| s' == s
        || (exists p :: BroadcastStep(cfg, s, s', p))
        || (exists p, q, i :: ReceiveStep(cfg, s, s', p, q, i))
        || (exists p :: CrashStep(s, s', p)))
  }

  // ------------------------------------------------------------------------------------------
  // Invariants
  // ------------------------------------------------------------------------------------------

  ghost function Holders(s: State, k: Key): set<nat> {
    set p | 0 <= p < |s.procs| && k in s.procs[p].urb.pending
  }

  /** The holders that `p` hears from: itself and the processes linked to it. */
  ghost function NearHolders(cfg: Config, s: State, p: nat, k: Key): set<nat> {
    set a | a in Holders(s, k) && (a == p || (a, p) in cfg.links)
  }

  /** The acknowledgements of a key at one process mean what the delivery rule takes them to mean. */
  ghost predicate AcksSound(cfg: Config, s: State, p: nat, k: Key)
    requires Shape(cfg, s) && p < cfg.n
  {
    var urb := s.procs[p].urb;
    var acks := Quorum.Acks(urb.ack, k);
    && acks <= NearHolders(cfg, s, p, k)
    && (acks != {} ==> k in urb.pending)
    && (k in urb.delivered ==> k in urb.pending && acks == {} && |NearHolders(cfg, s, p, k)| > cfg.n / 2)
    && (k in urb.pending && k !in urb.delivered ==> p in acks && |acks| <= cfg.n / 2)
    && (k in urb.pending ==> k.originator < cfg.n && k.seqNum < s.procs[k.originator].next)
  }

  ghost predicate UrbInv(cfg: Config, s: State)
    requires Shape(cfg, s)
  {
    forall p, k :: 0 <= p < cfg.n ==> AcksSound(cfg, s, p, k)
  }

  /** `b` is a message that `p` may have sent to `q`. */
  ghost predicate Genuine(cfg: Config, s: State, p: nat, q: nat, b: Body)
    requires Shape(cfg, s) && p < cfg.n && q < cfg.n
  {
    (p, q) in cfg.links && b in s.history && b.Id() in s.procs[p].urb.pending
  }

  /** Between `p` and `q`: what was issued, and what became of what was handed up. */
  ghost predicate ChannelSound(cfg: Config, s: State, p: nat, q: nat)
    requires Shape(cfg, s) && p < cfg.n && q < cfg.n
  {
    var c, receiver := s.net[p][q], s.procs[q].urb;
    && (forall i :: i in c.received ==> i < |c.issued|)
    && (forall i :: 0 <= i < |c.issued| ==> Genuine(cfg, s, p, q, c.issued[i]))
    && (forall i, j :: 0 <= i < j < |c.issued| ==> c.issued[i].Id() != c.issued[j].Id())
    && (forall i :: i in c.received ==> var k := c.issued[i].Id();
          k in receiver.pending && (k in receiver.delivered || p in Quorum.Acks(receiver.ack, k)))
  }

  ghost predicate Issued(c: Channel, k: Key) {
    exists i :: 0 <= i < |c.issued| && c.issued[i].Id() == k
  }

  ghost predicate NetInv(cfg: Config, s: State)
    requires Shape(cfg, s)
  {
    && (forall p, q :: 0 <= p < cfg.n && 0 <= q < cfg.n ==> ChannelSound(cfg, s, p, q))
    && (forall p, q, k :: 0 <= p < cfg.n && 0 <= q < cfg.n && (p, q) in cfg.links && k in s.procs[p].urb.pending ==>
          Issued(s.net[p][q], k))
  }

  /** The history holds exactly the numbers each process has used, every message after its past. */
  ghost predicate HistoryInv(cfg: Config, s: State)
    requires Shape(cfg, s)
  {
    && CausalHistory(cfg, s.history)
    && (forall b :: b in s.history ==> b.seqNum < s.procs[b.originator].next)
    && (forall p, t: nat :: 0 <= p < cfg.n && t < s.procs[p].next ==>
          Known(s.history, |s.history|, Key(p, t)) && Key(p, t) in s.procs[p].urb.pending)
  }

  ghost function Received(s: State, p: nat): set<Body>
    requires p < |s.procs|
  {
    set b | b in s.history && b.Id() in s.procs[p].urb.delivered
  }

  /** `b` is the message that `p` broadcasts after the log `prefix`. */
  ghost predicate BroadcastAfter(cfg: Config, prefix: seq<Event>, p: nat, b: Body) {
    && cfg.Admits(b) && b.originator == p && b.seqNum == Broadcasts(prefix)
    && forall i :: 0 <= i < |b.vectorClock| ==> b.vectorClock[i] == Delivered(prefix, cfg.deps[p][i])
  }

  /** The upper layer of `p` has processed exactly what the lower layer delivered to it, and its log
      records its broadcasts as they happened. */
  ghost predicate UpperSound(cfg: Config, s: State, p: nat)
    requires Shape(cfg, s) && p < cfg.n
  {
    var lcb := s.procs[p].lcb;
    && CausalOrder.Represents(cfg, lcb, Received(s, p))
    && CausalOrder.Stuck(cfg, lcb)
    && s.procs[p].next == Broadcasts(lcb.log)
    && forall j :: 0 <= j < |lcb.log| && lcb.log[j].Broadcast? ==>
         lcb.log[j].body in s.history && BroadcastAfter(cfg, lcb.log[..j], p, lcb.log[j].body)
  }

  ghost predicate UpperInv(cfg: Config, s: State)
    requires Shape(cfg, s)
  {
    forall p :: 0 <= p < cfg.n ==> UpperSound(cfg, s, p)
  }

  ghost predicate Inv(cfg: Config, s: State) {
    Shape(cfg, s) && UrbInv(cfg, s) && NetInv(cfg, s) && HistoryInv(cfg, s) && UpperInv(cfg, s)
  }
}
