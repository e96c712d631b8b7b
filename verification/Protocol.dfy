/** One process as a value, and what one iteration of its main loop does to it. */
module Protocol {
  import opened Messages
  import CausalOrder
  import Quorum

  /** `next` is the number of the next own broadcast. */
  datatype Proc = Proc(urb: Quorum.State, lcb: CausalOrder.State, next: nat)

  function Init(n: nat): Proc {
    Proc(Quorum.INIT, CausalOrder.Init(n), 0)
  }

  /** The clock restricted to the declared dependencies of `id`. */
  function VectorClock(cfg: Config, id: nat, clock: seq<nat>): seq<nat>
    requires cfg.Valid() && id < cfg.n && |clock| == cfg.n
  {
    seq(|cfg.deps[id]|, i requires 0 <= i < |cfg.deps[id]| => clock[cfg.deps[id][i]])
  }

  /** The message broadcast next. */
  function NextBody(cfg: Config, id: nat, p: Proc): (b: Body)
    requires id < cfg.n && CausalOrder.WellFormed(cfg, p.lcb)
    ensures cfg.Admits(b)
  {
    Body(id, p.next, VectorClock(cfg, id, p.lcb.clock))
  }

  function Upcall(cfg: Config, lcb: CausalOrder.State, up: bool, b: Body): (r: CausalOrder.State)
    requires CausalOrder.WellFormed(cfg, lcb) && cfg.Admits(b)
    ensures CausalOrder.WellFormed(cfg, r)
  {
    if up then CausalOrder.Accept(cfg, lcb, b) else lcb
  }

  /** The broadcast branch of the loop: send, then log. */
  function OnBroadcast(cfg: Config, id: nat, p: Proc): (r: Proc)
    requires id < cfg.n && CausalOrder.WellFormed(cfg, p.lcb)
    ensures CausalOrder.WellFormed(cfg, r.lcb)
  {
    var b := NextBody(cfg, id, p);
    var reaction := Quorum.Start(cfg.n, id, p.urb, b.Id());
    var lcb := Upcall(cfg, p.lcb, reaction.up, b);
    Proc(reaction.st, lcb.(log := lcb.log + [Event.Broadcast(b)]), p.next + 1)
  }

  /** The receive branch of the loop, for a message that the link hands up for the first time. */
  function OnReceive(cfg: Config, id: nat, p: Proc, sender: nat, b: Body): (r: Proc)
    requires CausalOrder.WellFormed(cfg, p.lcb) && cfg.Admits(b)
    ensures CausalOrder.WellFormed(cfg, r.lcb)
  {
    var reaction := Quorum.React(cfg.n, id, p.urb, sender, b.Id());
    Proc(reaction.st, Upcall(cfg, p.lcb, reaction.up, b), p.next)
  }

  predicate Relays(p: Proc, k: Key) {
    k !in p.urb.delivered && k !in p.urb.pending
  }

  lemma RelaysAsReaction(cfg: Config, id: nat, p: Proc, sender: nat, k: Key)
    ensures Quorum.React(cfg.n, id, p.urb, sender, k).relay <==> Relays(p, k)
  {}
}
