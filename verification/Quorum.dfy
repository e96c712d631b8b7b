/** The delivery rule of uniform reliable broadcast for one process and one message key, as a function:
    what arrives from the link changes the three sets, may cause one relay and at most one delivery. */
module Quorum {
  import opened Messages

  /** Seen and relayed, delivered, and from whom each undelivered key was heard. */
  datatype State = State(pending: set<Key>, delivered: set<Key>, ack: map<Key, set<nat>>)

  const INIT: State := State({}, {}, map[])

  function Acks(ack: map<Key, set<nat>>, k: Key): set<nat> {
    if k in ack then ack[k] else {}
  }

  /** `relay`: the message is sent on to the neighbours. `up`: it is handed to the layer above. */
  datatype Reaction = Reaction(st: State, relay: bool, up: bool)

  /** The net effect of receiving key `k` from `sender`. A relay includes hearing from oneself. After a
      relay that completes the quorum, an empty entry for the delivered key is left behind. */
  function React(n: nat, id: nat, st: State, sender: nat, k: Key): Reaction {
    if k in st.delivered then Reaction(st, false, false)
    else
      var relay := k !in st.pending;
      var heard := if relay then Acks(st.ack, k) + {sender} + {id} else Acks(st.ack, k) + {sender};
      var up := |heard| > n / 2;
      var ack := if !up then st.ack[k := heard] else if relay then st.ack[k := {}] else st.ack - {k};
      Reaction(State(st.pending + {k}, if up then st.delivered + {k} else st.delivered, ack), relay, up)
  }

  /** The net effect of broadcasting key `k`: it is sent to the neighbours and heard from oneself. */
  function Start(n: nat, id: nat, st: State, k: Key): Reaction {
    React(n, id, st.(pending := st.pending + {k}), id, k).(relay := true)
  }

  /** A key is delivered at most once: a delivery is always of an undelivered key and makes it
      delivered, and no reaction ever makes a key undelivered again. */
  lemma AtMostOnce(n: nat, id: nat, st: State, sender: nat, k: Key)
    ensures var r := React(n, id, st, sender, k);
      && (r.up <==> k !in st.delivered && k in r.st.delivered)
      && st.delivered <= r.st.delivered <= st.delivered + {k}
      && (r.relay <==> k !in st.delivered && k !in st.pending)
      && (k !in st.delivered ==> r.st.pending == st.pending + {k})
      && st.pending <= r.st.pending
      && (r.up ==> Acks(r.st.ack, k) == {} && (k in r.st.ack <==> r.relay))
  {}

  /** A delivered key is never touched again. Otherwise the sender is recorded, with oneself when relaying, as
      long as there is no majority. */
  lemma Remembers(n: nat, id: nat, st: State, sender: nat, k: Key)
    ensures var r := React(n, id, st, sender, k);
      && (k in st.delivered ==> r == Reaction(st, false, false))
      && (k !in st.delivered && !r.up ==>
            Acks(r.st.ack, k) == Acks(st.ack, k) + {sender} + (if r.relay then {id} else {}))
  {}

  /** No reaction touches another key. */
  lemma OthersUntouched(n: nat, id: nat, st: State, sender: nat, k: Key, other: Key)
    requires other != k
    ensures var r := React(n, id, st, sender, k).st;
      && (other in r.ack <==> other in st.ack) && Acks(r.ack, other) == Acks(st.ack, other)
      && (other in r.pending <==> other in st.pending) && (other in r.delivered <==> other in st.delivered)
  {}

  /** Recording the sender, delivering one's own relay first, and then trying again has the net
      effect: after a nested delivery there are no acknowledgements left to find. */
  lemma NestedRelay(n: nat, id: nat, st: State, sender: nat, k: Key)
    requires k !in st.delivered && k !in st.pending
    ensures var before := State(st.pending + {k}, st.delivered, st.ack[k := Acks(st.ack, k) + {sender}]);
      var nested := React(n, id, before, id, k);
      var left := Acks(nested.st.ack, k);
      && !nested.relay
      && (nested.up ==> left == {})
      && |left| <= n / 2
      && React(n, id, st, sender, k) == Reaction(nested.st.(ack := nested.st.ack[k := left]), true, nested.up)
  {
    var before := State(st.pending + {k}, st.delivered, st.ack[k := Acks(st.ack, k) + {sender}]);
    var nested := React(n, id, before, id, k);
    var heard := Acks(st.ack, k) + {sender} + {id};
    assert Acks(before.ack, k) + {id} == heard;
    assert before.pending + {k} == before.pending;
    if |heard| > n / 2 {
      assert nested.st.ack == before.ack - {k};
      assert (before.ack - {k})[k := {}] == st.ack[k := {}];
    } else {
      assert nested.st.ack == before.ack[k := heard];
      assert before.ack[k := heard][k := heard] == st.ack[k := heard];
    }
  }

  lemma NoRelay(n: nat, id: nat, st: State, sender: nat, k: Key)
    requires k !in st.delivered && k in st.pending
    ensures var heard := Acks(st.ack, k) + {sender};
      React(n, id, st, sender, k) ==
        if |heard| > n / 2 then Reaction(State(st.pending, st.delivered + {k}, st.ack[k := heard] - {k}), false, true)
        else Reaction(State(st.pending, st.delivered, st.ack[k := heard]), false, false)
  {
    assert st.pending + {k} == st.pending;
    assert st.ack[k := Acks(st.ack, k) + {sender}] - {k} == st.ack - {k};
  }
}
