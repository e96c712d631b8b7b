/** One direction of the link between two processes: sequence numbers whose top bit marks
    acknowledgements, retransmission until acknowledged, and a network that may lose, duplicate and
    reorder. */
module Link {
  import opened Messages
  import Bits

  const TOP_BIT: nat := 0x8000_0000_0000_0000

  /** What is put on the wire. The number is below 2^64. */
  datatype Frame = Frame(number: nat, body: Body)

  predicate IsSyn(f: Frame) {
    f.number < TOP_BIT
  }

  function SeqNum(f: Frame): nat {
    f.number % TOP_BIT
  }

  /** The acknowledgement of a frame: its number with the top bit set, without the vector clock. */
  function SetAck(f: Frame): Frame {
    Frame(if IsSyn(f) then f.number + TOP_BIT else f.number, f.body.(vectorClock := []))
  }

  /** The mask of the top bit of a 64-bit number. */
  function TopBitMask(): nat {
    Bits.Pow2(63)
  }

  lemma PowerValue(k: nat)
    requires k == 63
    ensures Bits.Pow2(k) == TOP_BIT
  {
    Bits.NineDoublings(k - 63);
    Bits.NineDoublings(k - 54);
    Bits.NineDoublings(k - 45);
    Bits.NineDoublings(k - 36);
    Bits.NineDoublings(k - 27);
    Bits.NineDoublings(k - 18);
    Bits.NineDoublings(k - 9);
  }

  lemma TopBitValue()
    ensures TopBitMask() == TOP_BIT
  {
    PowerValue(63);
  }

  /** On 64-bit numbers the arithmetic above is what the masks compute: testing the top bit, clearing it
      with the complement of its mask, and setting it. */
  lemma MasksAsArithmetic(f: Frame)
    requires f.number < 2 * TOP_BIT
    ensures IsSyn(f) <==> Bits.And(f.number, TopBitMask()) == 0
    ensures SeqNum(f) == Bits.And(f.number, Bits.Not(TopBitMask(), 64))
    ensures SetAck(f).number == Bits.Or(f.number, TopBitMask())
  {
    TestMask(f.number);
    ClearMask(f.number);
    SetMask(f.number);
  }

  lemma TestMask(x: nat)
    requires x < 2 * TOP_BIT
    ensures x < TOP_BIT <==> Bits.And(x, TopBitMask()) == 0
  {
    TopBitValue();
    Bits.TestTopBit(x, 63);
  }

  lemma ClearMask(x: nat)
    requires x < 2 * TOP_BIT
    ensures Bits.And(x, Bits.Not(TopBitMask(), 64)) == x % TOP_BIT
  {
    TopBitValue();
    MaskOfLowBits(63);
    Bits.KeepLowBits(x, 63);
  }

  /** The complement of the mask of a top bit has all lower bits set. */
  lemma MaskOfLowBits(k: nat)
    ensures Bits.Not(Bits.Pow2(k), k + 1) == Bits.Pow2(k) - 1
  {
    Bits.Complement(Bits.Pow2(k), k + 1);
  }

  lemma SetMask(x: nat)
    requires x < 2 * TOP_BIT
    ensures Bits.Or(x, TopBitMask()) == if x < TOP_BIT then x + TOP_BIT else x
  {
    TopBitValue();
    Bits.SetTopBit(x, 63);
  }

  /** An acknowledgement is never taken for a message, names the number it acknowledges, and carries the key
      of the message without its vector clock. */
  lemma AckEncoding(f: Frame)
    requires IsSyn(f)
    ensures !IsSyn(SetAck(f)) && SeqNum(SetAck(f)) == SeqNum(f) == f.number
    ensures SetAck(f).number < 2 * TOP_BIT
    ensures SetAck(f).body.Id() == f.body.Id() && SetAck(f).body.vectorClock == []
  {}

  /** What the sending process keeps for the link. `incoming` is shared by the main thread, which
      appends, and the worker, which takes from the front. */
  datatype Sender = Sender(next: nat, incoming: seq<Frame>, scheduled: multiset<Frame>, acknowledged: set<nat>)

  const FRESH_SENDER: Sender := Sender(0, [], multiset{}, {})

  /** A new message is queued for the worker (and transmitted once). */
  function Issue(s: Sender, b: Body): Sender {
    s.(next := s.next + 1, incoming := s.incoming + [Frame(s.next, b)])
  }

  /** An acknowledgement from the network is queued for the worker. */
  function NoteAck(s: Sender, f: Frame): Sender {
    s.(incoming := s.incoming + [f])
  }

  /** The worker takes one item from the queue. */
  function Take(s: Sender): Sender
    requires s.incoming != []
  {
    var f := s.incoming[0];
    var rest := s.(incoming := s.incoming[1..]);
    if IsSyn(f) then rest.(scheduled := s.scheduled + multiset{f})
    else rest.(acknowledged := s.acknowledged + {SeqNum(f)})
  }

  /** The queue keeps its order: what the main thread adds waits behind what is there. */
  lemma AddedWaits(s: Sender, b: Body, f: Frame)
    ensures s.incoming != [] ==> Take(Issue(s, b)) == Issue(Take(s), b) && Take(NoteAck(s, f)) == NoteAck(Take(s), f)
    ensures s.incoming == [] && IsSyn(Frame(s.next, b)) ==>
              Take(Issue(s, b)) == s.(next := s.next + 1, scheduled := s.scheduled + multiset{Frame(s.next, b)})
    ensures s.incoming == [] && !IsSyn(f) ==>
              Take(NoteAck(s, f)) == s.(acknowledged := s.acknowledged + {SeqNum(f)})
  {
    if s.incoming != [] {
      assert s.incoming == [s.incoming[0]] + s.incoming[1..];
    }
  }

  /** The timer of a scheduled message expires: drop it if acknowledged, otherwise transmit it again. */
  function Expire(s: Sender, f: Frame): Sender {
    if SeqNum(f) in s.acknowledged then
      s.(scheduled := s.scheduled - multiset{f}, acknowledged := s.acknowledged - {SeqNum(f)})
    else s
  }

  /** The whole direction. The wires keep everything ever sent: any of it may arrive again, in any
      order, or never. `issued` lists what the layer above asked to send. */
  datatype State = State(issued: seq<Body>, sender: Sender, delivered: set<nat>, wire: set<Frame>, acks: set<Frame>)

  const FRESH: State := State([], FRESH_SENDER, {}, {}, {})

  function Send(l: State, b: Body): State {
    l.(issued := l.issued + [b], sender := Issue(l.sender, b), wire := l.wire + {Frame(l.sender.next, b)})
  }

  /** The receiver gets a message: it is handed up unless its number was seen, and acknowledged. */
  function Receive(l: State, f: Frame): State {
    l.(delivered := l.delivered + {SeqNum(f)}, acks := l.acks + {SetAck(f)})
  }

  ghost predicate IsSend(l: State, l': State, b: Body) {
    l.sender.next < TOP_BIT && l' == Send(l, b)
  }

  ghost predicate IsReceive(l: State, l': State, f: Frame) {
    f in l.wire && IsSyn(f) && l' == Receive(l, f)
  }

  /** An acknowledgement arrives. */
  ghost predicate IsAcknowledged(l: State, l': State) {
    exists f :: f in l.acks && !IsSyn(f) && l' == l.(sender := NoteAck(l.sender, f))
  }

  /** The worker takes an item or handles a timeout. */
  ghost predicate IsWork(l: State, l': State) {
    || (l.sender.incoming != [] && l' == l.(sender := Take(l.sender)))
    || (exists f :: f in l.sender.scheduled
          && l' == l.(sender := Expire(l.sender, f),
                      wire := if SeqNum(f) in l.sender.acknowledged then l.wire else l.wire + {f}))
  }

  /** Steps that no upper layer notices. */
  ghost predicate IsInternal(l: State, l': State) {
    IsAcknowledged(l, l') || IsWork(l, l')
  }

  ghost predicate Genuine(l: State, f: Frame) {
    IsSyn(f) && f.number < |l.issued| && f.body == l.issued[f.number]
  }

  /** The message with number `i` is still in the sender's care. */
  ghost predicate Kept(l: State, i: nat)
    requires i < |l.issued|
  {
    Frame(i, l.issued[i]) in l.sender.scheduled || Frame(i, l.issued[i]) in l.sender.incoming
  }

  ghost predicate Inv(l: State) {
    && l.sender.next == |l.issued| <= TOP_BIT
    && (forall f :: f in l.wire ==> Genuine(l, f))
    && (forall f :: f in l.sender.scheduled ==> Genuine(l, f))
    && (forall f :: f in l.sender.incoming ==> if IsSyn(f) then Genuine(l, f) else SeqNum(f) in l.delivered)
    && (forall f :: f in l.acks ==> !IsSyn(f) && SeqNum(f) in l.delivered)
    && l.sender.acknowledged <= l.delivered
    && (forall i :: i in l.delivered ==> i < |l.issued|)
    && forall i :: 0 <= i < |l.issued| ==> i in l.delivered || Kept(l, i)
  }

  lemma FreshInv()
    ensures Inv(FRESH)
  {}

  lemma SendKeeps(l: State, l': State, b: Body)
    requires Inv(l) && IsSend(l, l', b)
    ensures Inv(l')
  {
    forall i | 0 <= i < |l'.issued|
      ensures i in l'.delivered || Kept(l', i)
    {
      if i < |l.issued| {
        assert i in l.delivered || Kept(l, i);
      } else {
        assert l'.sender.incoming[|l.sender.incoming|] == Frame(i, b);
      }
    }
  }

  /** A received number is handed up at most once, and with the content that was sent. */
  lemma ReceiveKeeps(l: State, l': State, f: Frame)
    requires Inv(l) && IsReceive(l, l', f)
    ensures Inv(l')
    ensures SeqNum(f) < |l.issued| && f.body == l.issued[SeqNum(f)]
  {
    AckEncoding(f);
    forall i | 0 <= i < |l'.issued|
      ensures i in l'.delivered || Kept(l', i)
    {
      assert i in l.delivered || Kept(l, i);
    }
  }

  lemma TakeKeeps(l: State, l': State)
    requires Inv(l) && l.sender.incoming != [] && l' == l.(sender := Take(l.sender))
    ensures Inv(l')
  {
    var head, rest := l.sender.incoming[0], l.sender.incoming[1..];
    assert l.sender.incoming == [head] + rest;
    forall i | 0 <= i < |l'.issued|
      ensures i in l'.delivered || Kept(l', i)
    {
      assert i in l.delivered || Kept(l, i);
    }
  }

  /** An entry leaves the retransmission heap only after the receiver has the message. */
  lemma DroppedOnlyItself(l: State, f: Frame, i: nat)
    requires i < |l.issued| && Kept(l, i) && Frame(i, l.issued[i]) != f
    ensures Kept(l.(sender := Expire(l.sender, f)), i)
  {}

  lemma ExpireKeeps(l: State, l': State, f: Frame)
    requires Inv(l) && f in l.sender.scheduled
    requires l' == l.(sender := Expire(l.sender, f),
                      wire := if SeqNum(f) in l.sender.acknowledged then l.wire else l.wire + {f})
    ensures Inv(l')
    ensures l'.sender.scheduled != l.sender.scheduled ==> f.number in l.delivered
  {
    forall i | 0 <= i < |l'.issued|
      ensures i in l'.delivered || Kept(l', i)
    {
      assert i in l.delivered || Kept(l, i);
      if i !in l.delivered && Frame(i, l.issued[i]) != f {
        DroppedOnlyItself(l, f, i);
      }
    }
  }

  lemma InternalKeeps(l: State, l': State)
    requires Inv(l) && IsInternal(l, l')
    ensures Inv(l')
    ensures l'.issued == l.issued && l'.delivered == l.delivered
  {
    if f :| f in l.acks && !IsSyn(f) && l' == l.(sender := NoteAck(l.sender, f)) {
      forall i | 0 <= i < |l'.issued|
        ensures i in l'.delivered || Kept(l', i)
      {
        assert i in l.delivered || Kept(l, i);
      }
    } else if l.sender.incoming != [] && l' == l.(sender := Take(l.sender)) {
      TakeKeeps(l, l');
    } else {
      var f :| f in l.sender.scheduled
        && l' == l.(sender := Expire(l.sender, f),
                    wire := if SeqNum(f) in l.sender.acknowledged then l.wire else l.wire + {f});
      ExpireKeeps(l, l', f);
    }
  }

  /** No message is outstanding: the worker has no message queued or scheduled. */
  predicate Idle(s: Sender) {
    s.scheduled == multiset{} && forall f :: f in s.incoming ==> !IsSyn(f)
  }

  /** Nothing is lost: when the worker has nothing left to send, everything issued was handed up. */
  lemma IdleMeansDelivered(l: State)
    requires Inv(l) && Idle(l.sender)
    ensures forall i :: 0 <= i < |l.issued| <==> i in l.delivered
  {
    forall i | 0 <= i < |l.issued|
      ensures i in l.delivered
    {
      assert i in l.delivered || Kept(l, i);
    }
  }

  // ------------------------------------------------------------------------------------------
  // Whole runs of one link
  // ------------------------------------------------------------------------------------------

  datatype Action = Sending(b: Body) | Receiving(f: Frame) | Internally

  ghost predicate IsStep(l: State, a: Action, l': State) {
    match a
    case Sending(b) => IsSend(l, l', b)
    case Receiving(f) => IsReceive(l, l', f)
    case Internally => IsInternal(l, l')
  }

  /** `states[i + 1]` follows from `states[i]` by action `i`. */
  ghost predicate IsRun(actions: seq<Action>, states: seq<State>) {
    && |states| == |actions| + 1 && states[0] == FRESH
    && forall i :: 0 <= i < |actions| ==> IsStep(states[i], actions[i], states[i + 1])
  }

  /** The messages handed up along a run: a received message whose number was not seen before. */
  ghost function HandUps(actions: seq<Action>, states: seq<State>): seq<Frame>
    requires |states| == |actions| + 1
  {
    if actions == [] then []
    else
      var n := |actions| - 1;
      var before := HandUps(actions[..n], states[..n + 1]);
      if actions[n].Receiving? && SeqNum(actions[n].f) !in states[n].delivered then before + [actions[n].f] else before
  }

  /** Every hand-up is of something that was sent, and no number is handed up twice. */
  ghost predicate OnceEach(l: State, handedUp: seq<Frame>) {
    && (forall x :: 0 <= x < |handedUp| ==> Genuine(l, handedUp[x]) && handedUp[x].number in l.delivered)
    && (forall x, y :: 0 <= x < y < |handedUp| ==> handedUp[x].number != handedUp[y].number)
    && forall i :: i in l.delivered ==> exists x :: 0 <= x < |handedUp| && handedUp[x].number == i
  }

  lemma StepKeeps(l: State, a: Action, l': State)
    requires Inv(l) && IsStep(l, a, l')
    ensures Inv(l') && l.issued <= l'.issued
  {
    match a
    case Sending(b) => SendKeeps(l, l', b);
    case Receiving(f) => ReceiveKeeps(l, l', f);
    case Internally => InternalKeeps(l, l');
  }

  /** One more number that was not handed up before. */
  lemma OneMoreEach(l: State, l': State, handedUp: seq<Frame>, f: Frame)
    requires OnceEach(l, handedUp) && l.issued == l'.issued
    requires l'.delivered == l.delivered + {f.number} && f.number !in l.delivered && Genuine(l', f)
    ensures OnceEach(l', handedUp + [f])
  {
    var more := handedUp + [f];
    assert more[|handedUp|] == f;
    forall i | i in l'.delivered
      ensures exists x :: 0 <= x < |more| && more[x].number == i
    {
      if i in l.delivered {
        var x :| 0 <= x < |handedUp| && handedUp[x].number == i;
        assert more[x].number == i;
      }
    }
  }

  lemma HandUpKeeps(l: State, a: Action, l': State, handedUp: seq<Frame>)
    requires Inv(l) && IsStep(l, a, l') && OnceEach(l, handedUp)
    ensures var more := if a.Receiving? && SeqNum(a.f) !in l.delivered then handedUp + [a.f] else handedUp;
      OnceEach(l', more)
  {
    match a
    case Sending(b) =>
    case Internally => InternalKeeps(l, l');
    case Receiving(f) =>
      ReceiveKeeps(l, l', f);
      AckEncoding(f);
      if SeqNum(f) in l.delivered {
        assert l.delivered + {SeqNum(f)} == l.delivered;
      } else {
        OneMoreEach(l, l', handedUp, f);
      }
  }

  /** Main result: in every run, whatever the network loses, repeats and reorders, each number is handed
      up at most once and with the content sent under it; and whatever was not handed up yet is still in
      the sender's queue or heap. */
  lemma {:induction false} ExactlyOnce(actions: seq<Action>, states: seq<State>)
    requires IsRun(actions, states)
    ensures var end := states[|actions|];
      && Inv(end)
      && OnceEach(end, HandUps(actions, states))
      && forall i :: 0 <= i < |end.issued| ==> i in end.delivered || Kept(end, i)
  {
    if actions == [] {
      FreshInv();
    } else {
      var n := |actions| - 1;
      ExactlyOnce(actions[..n], states[..n + 1]);
      StepKeeps(states[n], actions[n], states[n + 1]);
      HandUpKeeps(states[n], actions[n], states[n + 1], HandUps(actions[..n], states[..n + 1]));
    }
  }
}
