/** The vocabulary shared by every layer: broadcast messages, their keys, the static configuration,
    and the event log that the application observes. */
module Messages {

  /** Two broadcast messages are the same message exactly when originator and number agree. */
  datatype Key = Key(originator: nat, seqNum: nat)

  /** What the upper layers put in a message. The vector clock has one entry per declared
      dependency of the originator, in the order of the configuration line. */
  datatype Body = Body(originator: nat, seqNum: nat, vectorClock: seq<nat>) {
    function Id(): Key {
      Key(originator, seqNum)
    }
  }

  /** What travels between two processes: the body under a link sequence number and the true sender. */
  datatype Message = Message(linkSeqNum: nat, sender: nat, body: Body)

  datatype Packet = Packet(receiver: nat, msg: Message)

  /** One line of a process log. The log itself shows numbers only; the events keep the message so
      that the specification can talk about its clock. */
  datatype Event = Broadcast(body: Body) | Deliver(body: Body)

  /** `n` processes numbered from 0; for each, the processes that can affect it; and the ordered pairs
      of processes such that the first sends to the second. */
  datatype Config = Config(n: nat, deps: seq<seq<nat>>, links: set<(nat, nat)>) {
    ghost predicate Valid() {
      && 2 <= n <= 128
      && |deps| == n
      && forall p, i :: 0 <= p < n && 0 <= i < |deps[p]| ==> deps[p][i] < n
    }

    /** A message this configuration can produce. */
    ghost predicate Admits(b: Body) {
      b.originator < n && b.originator < |deps| && |b.vectorClock| == |deps[b.originator]|
    }
  }

  /** How many messages of `originator` the log delivers. */
  function Delivered(log: seq<Event>, originator: nat): nat {
    if log == [] then 0
    else
      var last := log[|log| - 1];
      Delivered(log[..|log| - 1], originator) + (if last.Deliver? && last.body.originator == originator then 1 else 0)
  }

  /** How many messages the log broadcasts. */
  function Broadcasts(log: seq<Event>): nat {
    if log == [] then 0
    else Broadcasts(log[..|log| - 1]) + (if log[|log| - 1].Broadcast? then 1 else 0)
  }

  lemma DeliveredSnoc(log: seq<Event>, e: Event, originator: nat)
    ensures Delivered(log + [e], originator)
         == Delivered(log, originator) + (if e.Deliver? && e.body.originator == originator then 1 else 0)
  {
    assert (log + [e])[..|log|] == log;
  }

  lemma BroadcastsSnoc(log: seq<Event>, e: Event)
    ensures Broadcasts(log + [e]) == Broadcasts(log) + (if e.Broadcast? then 1 else 0)
  {
    assert (log + [e])[..|log|] == log;
  }

  lemma {:induction false} DeliveredMonotone(log: seq<Event>, i: nat, j: nat, originator: nat)
    requires i <= j <= |log|
    ensures Delivered(log[..i], originator) <= Delivered(log[..j], originator)
    decreases j
  {
    if i < j {
      assert log[..j][..j - 1] == log[..j - 1];
      DeliveredMonotone(log, i, j - 1, originator);
    }
  }

  /** A delivery counts from the next position on. */
  lemma DeliveredAfter(log: seq<Event>, i: nat, j: nat)
    requires i < j <= |log| && log[i].Deliver?
    ensures Delivered(log[..i], log[i].body.originator) < Delivered(log[..j], log[i].body.originator)
  {
    assert log[..i + 1] == log[..i] + [log[i]];
    DeliveredSnoc(log[..i], log[i], log[i].body.originator);
    DeliveredMonotone(log, i + 1, j, log[i].body.originator);
  }

  /** `k` is the key of one of the first `j` messages of the history. */
  ghost predicate Known(history: seq<Body>, j: nat, k: Key)
    requires j <= |history|
  {
    exists i :: 0 <= i < j && history[i].Id() == k
  }

  /** Everything that `b` depends on comes earlier than position `j`: the earlier messages of its
      originator, and what its vector clock counts. */
  ghost predicate PastKnown(cfg: Config, history: seq<Body>, j: nat, b: Body)
    requires j <= |history|
  {
    && cfg.Admits(b)
    && (forall t: nat :: t < b.seqNum ==> Known(history, j, Key(b.originator, t)))
    && forall i, t: nat :: 0 <= i < |b.vectorClock| && t < b.vectorClock[i] ==>
         Known(history, j, Key(cfg.deps[b.originator][i], t))
  }

  /** All messages broadcast so far, in the order in which they were broadcast. */
  ghost predicate CausalHistory(cfg: Config, history: seq<Body>) {
    && (forall i, j :: 0 <= i < j < |history| ==> history[i].Id() != history[j].Id())
    && forall j :: 0 <= j < |history| ==> PastKnown(cfg, history, j, history[j])
  }
}
