/** When the set of acknowledged numbers holds a number that is not waiting for its acknowledgement any
    more, and what follows from that. */
module LateAcknowledgements {
  import opened Messages
  import opened Link

  /** A message with this number is queued or scheduled. */
  ghost predicate InCare(s: Sender, n: nat) {
    exists f :: IsSyn(f) && f.number == n && (f in s.scheduled || f in s.incoming)
  }

  /** Only numbers in care are marked as acknowledged. */
  ghost predicate Confined(s: Sender) {
    forall n :: n in s.acknowledged ==> InCare(s, n)
  }

  ghost predicate Stale(s: Sender, n: nat) {
    n in s.acknowledged && !InCare(s, n)
  }

  lemma InCareOf(s: Sender, f: Frame)
    requires IsSyn(f) && (f in s.scheduled || f in s.incoming)
    ensures InCare(s, f.number)
  {}

  /** What is queued or scheduled, but for one frame, stays in care. */
  lemma StillInCare(s: Sender, s': Sender, n: nat)
    requires InCare(s, n)
    requires forall f :: IsSyn(f) && f.number == n && (f in s.scheduled || f in s.incoming) ==>
               f in s'.scheduled || f in s'.incoming
    ensures InCare(s', n)
  {
    var f :| IsSyn(f) && f.number == n && (f in s.scheduled || f in s.incoming);
    InCareOf(s', f);
  }

  lemma IssueConfined(s: Sender, b: Body)
    requires Confined(s)
    ensures Confined(Issue(s, b))
  {
    forall n | n in s.acknowledged
      ensures InCare(Issue(s, b), n)
    {
      StillInCare(s, Issue(s, b), n);
    }
  }

  lemma NoteAckConfined(s: Sender, f: Frame)
    requires Confined(s)
    ensures Confined(NoteAck(s, f))
  {
    forall n | n in s.acknowledged
      ensures InCare(NoteAck(s, f), n)
    {
      StillInCare(s, NoteAck(s, f), n);
    }
  }

  lemma TakeKeepsCare(s: Sender, n: nat)
    requires s.incoming != []
    ensures InCare(Take(s), n) <==> InCare(s, n)
  {
    var head, rest := s.incoming[0], s.incoming[1..];
    assert s.incoming == [head] + rest;
    if InCare(s, n) {
      StillInCare(s, Take(s), n);
    }
    if InCare(Take(s), n) {
      StillInCare(Take(s), s, n);
    }
  }

  /** Taking from the queue is where it happens: exactly when an acknowledgement comes for a number that is
      in care no more. */
  lemma TakeConfined(s: Sender)
    requires Confined(s) && s.incoming != []
    ensures Confined(Take(s)) <==> IsSyn(s.incoming[0]) || InCare(s, SeqNum(s.incoming[0]))
  {
    forall n: nat
      ensures InCare(Take(s), n) <==> InCare(s, n)
    {
      TakeKeepsCare(s, n);
    }
    if !IsSyn(s.incoming[0]) {
      assert SeqNum(s.incoming[0]) in Take(s).acknowledged;
    }
  }

  lemma ExpireConfined(s: Sender, f: Frame)
    requires Confined(s)
    ensures Confined(Expire(s, f))
  {
    forall n | n in Expire(s, f).acknowledged
      ensures InCare(Expire(s, f), n)
    {
      StillInCare(s, Expire(s, f), n);
    }
  }

  // ------------------------------------------------------------------------------------------
  // On the link
  // ------------------------------------------------------------------------------------------

  lemma ExpireKeepsStale(l: State, f: Frame, n: nat)
    requires Inv(l) && f in l.sender.scheduled && Stale(l.sender, n)
    ensures Stale(Expire(l.sender, f), n)
  {
    assert Genuine(l, f);
    InCareOf(l.sender, f);
    if InCare(Expire(l.sender, f), n) {
      StillInCare(Expire(l.sender, f), l.sender, n);
    }
  }

  lemma IssueKeepsStale(l: State, b: Body, n: nat)
    requires Inv(l) && l.sender.next < TOP_BIT && Stale(l.sender, n)
    ensures Stale(Issue(l.sender, b), n)
  {
    var s' := Issue(l.sender, b);
    assert n in l.delivered;
    if InCare(s', n) {
      StillInCare(s', l.sender, n);
    }
  }

  lemma NoteAckKeepsStale(l: State, f: Frame, n: nat)
    requires Stale(l.sender, n) && !IsSyn(f)
    ensures Stale(NoteAck(l.sender, f), n)
  {
    if InCare(NoteAck(l.sender, f), n) {
      StillInCare(NoteAck(l.sender, f), l.sender, n);
    }
  }

  /** A stale number stays one, whatever happens on the link. */
  lemma StepKeepsStale(l: State, a: Action, l': State, n: nat)
    requires Inv(l) && IsStep(l, a, l') && Stale(l.sender, n)
    ensures Stale(l'.sender, n)
  {
    match a
    case Sending(b) => IssueKeepsStale(l, b, n);
    case Receiving(f) =>
    case Internally =>
      if l.sender.incoming != [] && l' == l.(sender := Take(l.sender)) {
        TakeKeepsCare(l.sender, n);
      } else if f :| f in l.acks && !IsSyn(f) && l' == l.(sender := NoteAck(l.sender, f)) {
        NoteAckKeepsStale(l, f, n);
      } else {
        var f :| f in l.sender.scheduled && l'.sender == Expire(l.sender, f);
        ExpireKeepsStale(l, f, n);
      }
  }

  lemma FirstSteps(actions: seq<Action>, states: seq<State>, k: nat)
    requires IsRun(actions, states) && k <= |actions|
    ensures IsRun(actions[..k], states[..k + 1]) && Inv(states[k])
  {
    assert IsRun(actions[..k], states[..k + 1]);
    ExactlyOnce(actions[..k], states[..k + 1]);
  }

  /** Main result: in every run, a number that is stale once is stale ever after. */
  lemma {:induction false} StaleForever(actions: seq<Action>, states: seq<State>, i: nat, j: nat, n: nat)
    requires IsRun(actions, states) && i <= j < |states| && Stale(states[i].sender, n)
    ensures Stale(states[j].sender, n)
    decreases j
  {
    if i < j {
      StaleForever(actions, states, i, j - 1, n);
      FirstSteps(actions, states, j - 1);
      StepKeepsStale(states[j - 1], actions[j - 1], states[j], n);
    }
  }

  /** The worker takes an acknowledgement whose number is in care no more. */
  ghost predicate LateTake(l: State, l': State) {
    && l.sender.incoming != [] && l'.sender == Take(l.sender)
    && !IsSyn(l.sender.incoming[0]) && !InCare(l.sender, SeqNum(l.sender.incoming[0]))
  }

  lemma TakeChanges(s: Sender)
    ensures s.incoming != [] ==> Take(s) != s
  {
    if s.incoming != [] {
      assert |Take(s).incoming| == |s.incoming| - 1;
    }
  }

  lemma StepConfined(l: State, a: Action, l': State)
    requires Inv(l) && IsStep(l, a, l') && Confined(l.sender)
    ensures Confined(l'.sender) <==> !LateTake(l, l')
  {
    match a
    case Sending(b) => IssueConfined(l.sender, b);
    case Receiving(f) =>
      TakeChanges(l.sender);
    case Internally =>
      if l.sender.incoming != [] && l' == l.(sender := Take(l.sender)) {
        TakeConfined(l.sender);
      } else if f :| f in l.acks && !IsSyn(f) && l' == l.(sender := NoteAck(l.sender, f)) {
        NoteAckConfined(l.sender, f);
      } else {
        var f :| f in l.sender.scheduled && l'.sender == Expire(l.sender, f);
        ExpireConfined(l.sender, f);
      }
  }

  lemma SomeStale(s: Sender) returns (n: nat)
    requires !Confined(s)
    ensures Stale(s, n)
  {
    n :| n in s.acknowledged && !InCare(s, n);
  }

  /** Main result: a run ends with acknowledged numbers in care only, exactly when no acknowledgement was
      taken late on the way. */
  lemma {:induction false} ConfinedIff(actions: seq<Action>, states: seq<State>)
    requires IsRun(actions, states)
    ensures Confined(states[|actions|].sender)
       <==> forall i :: 0 <= i < |actions| ==> !LateTake(states[i], states[i + 1])
  {
    if actions != [] {
      var k := |actions| - 1;
      FirstSteps(actions, states, k);
      ConfinedIff(actions[..k], states[..k + 1]);
      if Confined(states[k].sender) {
        StepConfined(states[k], actions[k], states[k + 1]);
      } else {
        var n := SomeStale(states[k].sender);
        StepKeepsStale(states[k], actions[k], states[k + 1], n);
      }
    }
  }

  function Without(s: Sender, n: nat): Sender {
    s.(acknowledged := s.acknowledged - {n})
  }

  /** It does no harm: whatever timer expires, the worker drops and transmits what it would without the
      stale number. */
  lemma StaleIsHarmless(l: State, f: Frame, n: nat)
    requires Inv(l) && f in l.sender.scheduled && Stale(l.sender, n)
    ensures SeqNum(f) in l.sender.acknowledged <==> SeqNum(f) in Without(l.sender, n).acknowledged
    ensures Expire(Without(l.sender, n), f) == Without(Expire(l.sender, f), n)
  {
    assert Genuine(l, f);
    InCareOf(l.sender, f);
    assert l.sender.acknowledged - {n} - {f.number} == l.sender.acknowledged - {f.number} - {n};
  }

  /** It does happen: the message is acknowledged twice, and the second acknowledgement is taken after the
      first one has freed the entry. */
  lemma GoesStale(b: Body) returns (actions: seq<Action>, states: seq<State>)
    ensures IsRun(actions, states) && |actions| == 8
    ensures Stale(states[8].sender, 0) && Idle(states[8].sender)
  {
    var f := Frame(0, b);
    var ack := SetAck(f);
    var l1 := Send(FRESH, b);
    var l2 := Receive(l1, f);
    var l3 := l2.(sender := Take(l2.sender));
    var l4 := l3.(sender := NoteAck(l3.sender, ack));
    var l5 := l4.(sender := NoteAck(l4.sender, ack));
    var l6 := l5.(sender := Take(l5.sender));
    var l7 := l6.(sender := Expire(l6.sender, f));
    var l8 := l7.(sender := Take(l7.sender));
    assert l1.sender.incoming == [f];
    assert l3.sender == Sender(1, [], multiset{f}, {});
    assert l5.sender.incoming == [ack, ack];
    assert l6.sender == Sender(1, [ack], multiset{f}, {0});
    assert l7.sender == Sender(1, [ack], multiset{}, {});
    assert l8.sender == Sender(1, [], multiset{}, {0});
    assert IsInternal(l6, l7);
    actions := [Sending(b), Receiving(f), Internally, Internally, Internally, Internally, Internally, Internally];
    states := [FRESH, l1, l2, l3, l4, l5, l6, l7, l8];
  }
}
