/** The two ends that one process holds towards one peer, with the queue between the main thread and
    the retransmission worker. */
module PerfectLink {
  import opened Messages
  import opened Link
  import Backoff
  import Bits
  import Retransmission
  import RollingSet

  datatype Option<T> = None | Some(value: T)

  class ConcurrentQueue<T> {
    var inner: seq<T>

    constructor ()
      ensures inner == []
    {
      inner := [];
    }

    method Push(val: T)
      modifies this
      ensures inner == old(inner) + [val]
    {
      inner := inner + [val];
    }

    method TryPop() returns (item: Option<T>)
      modifies this
      ensures old(inner) == [] ==> item == None && inner == []
      ensures old(inner) != [] ==> item == Some(old(inner)[0]) && inner == old(inner)[1..]
    {
      if inner == [] {
        return None;
      }
      item := Some(inner[0]);
      inner := inner[1..];
    }
  }

  datatype Entry = Entry(msg: Frame, timer: Backoff.Timer)

  /** Heap insertion by the time of the next timeout. */
  function Schedule(heap: seq<Entry>, e: Entry): seq<Entry> {
    if heap == [] || e.timer.retryAt < heap[0].timer.retryAt then [e] + heap
    else [heap[0]] + Schedule(heap[1..], e)
  }

  function Contents(heap: seq<Entry>): multiset<Frame> {
    if heap == [] then multiset{} else multiset{heap[0].msg} + Contents(heap[1..])
  }

  /** How many timers have expired. */
  function Due(heap: seq<Entry>, now: nat): nat {
    if heap == [] then 0 else (if heap[0].timer.retryAt <= now then 1 else 0) + Due(heap[1..], now)
  }

  ghost predicate EarliestFirst(heap: seq<Entry>) {
    forall i, j :: 0 <= i < j < |heap| ==> heap[i].timer.retryAt <= heap[j].timer.retryAt
  }

  lemma {:induction false} ScheduleContents(heap: seq<Entry>, e: Entry)
    ensures Contents(Schedule(heap, e)) == Contents(heap) + multiset{e.msg}
  {
    if heap != [] && e.timer.retryAt >= heap[0].timer.retryAt {
      ScheduleContents(heap[1..], e);
    }
  }

  lemma {:induction false} ScheduleDue(heap: seq<Entry>, e: Entry, now: nat)
    ensures Due(Schedule(heap, e), now) == Due(heap, now) + if e.timer.retryAt <= now then 1 else 0
  {
    if heap != [] && e.timer.retryAt >= heap[0].timer.retryAt {
      ScheduleDue(heap[1..], e, now);
    }
  }

  lemma {:induction false} DueBound(heap: seq<Entry>, now: nat)
    ensures Due(heap, now) <= |heap|
  {
    if heap != [] {
      DueBound(heap[1..], now);
    }
  }

  lemma {:induction false} NoneDue(heap: seq<Entry>, now: nat)
    requires EarliestFirst(heap) && (heap == [] || heap[0].timer.retryAt > now)
    ensures Due(heap, now) == 0
  {
    if heap != [] {
      NoneDue(heap[1..], now);
    }
  }

  lemma {:induction false} ScheduleEarliestFirst(heap: seq<Entry>, e: Entry)
    requires EarliestFirst(heap)
    ensures EarliestFirst(Schedule(heap, e))
  {
    if heap != [] && e.timer.retryAt >= heap[0].timer.retryAt {
      ScheduleEarliestFirst(heap[1..], e);
      ScheduleMembers(heap[1..], e);
      forall x | x in Schedule(heap[1..], e)
        ensures heap[0].timer.retryAt <= x.timer.retryAt
      {}
    }
  }

  ghost predicate DistinctEntries(heap: seq<Entry>) {
    forall i, j :: 0 <= i < j < |heap| ==> heap[i].msg.number != heap[j].msg.number
  }

  /** No number occurs twice among the messages that are queued or scheduled. */
  ghost predicate DistinctNumbers(queue: seq<Frame>, heap: seq<Entry>) {
    && DistinctEntries(heap)
    && (forall i, j :: 0 <= i < j < |queue| && IsSyn(queue[i]) && IsSyn(queue[j]) ==>
          queue[i].number != queue[j].number)
    && forall e, f :: e in heap && f in queue && IsSyn(f) ==> e.msg.number != f.number
  }

  lemma {:induction false} ScheduleDistinct(heap: seq<Entry>, e: Entry)
    requires DistinctEntries(heap) && forall x :: x in heap ==> x.msg.number != e.msg.number
    ensures DistinctEntries(Schedule(heap, e))
  {
    if heap != [] && e.timer.retryAt >= heap[0].timer.retryAt {
      ScheduleDistinct(heap[1..], e);
      ScheduleMembers(heap[1..], e);
      assert heap[0] in heap;
      forall x | x in Schedule(heap[1..], e)
        ensures x.msg.number != heap[0].msg.number
      {}
    }
  }

  lemma {:induction false} ScheduleMembers(heap: seq<Entry>, e: Entry)
    ensures forall x :: x in Schedule(heap, e) <==> x == e || x in heap
  {
    if heap != [] && e.timer.retryAt >= heap[0].timer.retryAt {
      ScheduleMembers(heap[1..], e);
      assert heap == [heap[0]] + heap[1..];
    }
  }

  /** The entries of a worker, and when each number was scheduled and retransmitted. */
  datatype Timetable = Timetable(heap: seq<Entry>, times: map<nat, seq<nat>>)

  /** The times after one iteration that started at `now` and acted at `later`: a message just taken is
      scheduled, and a message sent again is sent at that time. */
  function TimesAfter(s: Sender, plan: Timetable, now: nat, later: nat): map<nat, seq<nat>> {
    if (plan.heap == [] || plan.heap[0].timer.retryAt > now) && s.incoming != [] then
      if IsSyn(s.incoming[0]) then plan.times[s.incoming[0].number := [later]] else plan.times
    else if plan.heap == [] || SeqNum(plan.heap[0].msg) in s.acknowledged then plan.times
    else
      var n := plan.heap[0].msg.number;
      if n in plan.times then plan.times[n := plan.times[n] + [later]] else plan.times
  }

  /** The retransmission loop of one peer. It shares `incoming` with the main thread. */
  class Worker {
    const incoming: ConcurrentQueue<Frame>
    var scheduled: seq<Entry>
    var acknowledged: set<nat>
    /** When each scheduled number was scheduled and retransmitted. */
    ghost var times: map<nat, seq<nat>>

    ghost predicate Valid()
      reads this, incoming
    {
      && EarliestFirst(scheduled)
      && DistinctNumbers(incoming.inner, scheduled)
      && (forall e :: e in scheduled ==> IsSyn(e.msg))
      && forall e :: e in scheduled ==> Timed(e)
    }

    ghost predicate Timed(e: Entry)
      reads this`times
    {
      e.msg.number in times && Backoff.OnTime(times[e.msg.number]) && e.timer == Backoff.After(times[e.msg.number])
    }

    ghost function Sends(next: nat): Sender
      reads this, incoming
    {
      Sender(next, incoming.inner, Contents(scheduled), acknowledged)
    }

    /** A message that is still unacknowledged was sent again only as often as its waiting time has
        doubled: `r` retransmissions by time `now` mean that it waited for `100 * (2^r - 1)` milliseconds. */
    lemma CopiesAreFew(e: Entry, now: nat)
      requires Valid() && e in scheduled && times[e.msg.number][|times[e.msg.number]| - 1] <= now
      ensures var when := times[e.msg.number];
        100 * (Bits.Pow2(|when| - 1) - 1) <= now - when[0]
    {
      Backoff.RetransmissionBound(times[e.msg.number], |times[e.msg.number]| - 1);
    }

    constructor (incoming: ConcurrentQueue<Frame>)
      requires incoming.inner == []
      ensures Valid() && this.incoming == incoming && Sends(0) == FRESH_SENDER
    {
      this.incoming := incoming;
      scheduled, acknowledged, times := [], {}, map[];
    }

    /** The earliest timer has expired: forget the message if it was acknowledged, otherwise send it
        again and wait twice as long. */
    method HandleTimeout(now: nat) returns (resend: Option<Frame>)
      requires Valid() && (scheduled != [] ==> scheduled[0].timer.retryAt <= now)
      modifies this
      ensures Valid()
      ensures old(scheduled) == [] ==>
                scheduled == [] && acknowledged == old(acknowledged) && resend == None && times == old(times)
      ensures old(scheduled) != [] ==>
                var msg := old(scheduled)[0].msg;
                && old(scheduled)[0] in old(scheduled)
                && (if SeqNum(msg) in old(acknowledged) then
                      && Contents(scheduled) == old(Contents(scheduled)) - multiset{msg}
                      && acknowledged == old(acknowledged) - {SeqNum(msg)}
                      && resend == None && times == old(times)
                    else
                      && Contents(scheduled) == old(Contents(scheduled))
                      && acknowledged == old(acknowledged)
                      && resend == Some(msg)
                      && times == old(times)[msg.number := old(times)[msg.number] + [now]])
                && Due(scheduled, now) + 1 == old(Due(scheduled, now))
    {
      if scheduled == [] {
        return None;
      }
      resend := HandleTop(now);
    }

    method HandleTop(now: nat) returns (resend: Option<Frame>)
      requires Valid() && scheduled != [] && scheduled[0].timer.retryAt <= now
      modifies this
      ensures Valid() && Due(scheduled, now) + 1 == old(Due(scheduled, now))
      ensures var msg := old(scheduled)[0].msg;
        && old(scheduled)[0] in old(scheduled)
        && if SeqNum(msg) in old(acknowledged) then
             && Contents(scheduled) == old(Contents(scheduled)) - multiset{msg}
             && acknowledged == old(acknowledged) - {SeqNum(msg)}
             && resend == None && times == old(times)
           else
             && Contents(scheduled) == old(Contents(scheduled))
             && acknowledged == old(acknowledged)
             && resend == Some(msg)
             && times == old(times)[msg.number := old(times)[msg.number] + [now]]
    {
      var next := PopDue(now);
      resend := DropOrRetry(next, now);
    }

    /** Forgets the entry if it was acknowledged, otherwise sends it again. */
    method DropOrRetry(next: Entry, now: nat) returns (resend: Option<Frame>)
      requires Valid() && Timed(next) && IsSyn(next.msg) && next.timer.retryAt <= now
      requires forall e :: e in scheduled ==> e.msg.number != next.msg.number
      requires forall f :: f in incoming.inner && IsSyn(f) ==> f.number != next.msg.number
      modifies this
      ensures Valid() && Due(scheduled, now) == old(Due(scheduled, now))
      ensures if SeqNum(next.msg) in old(acknowledged) then
                && Contents(scheduled) == old(Contents(scheduled))
                && acknowledged == old(acknowledged) - {SeqNum(next.msg)}
                && resend == None && times == old(times)
              else
                && Contents(scheduled) == old(Contents(scheduled)) + multiset{next.msg}
                && acknowledged == old(acknowledged)
                && resend == Some(next.msg)
                && times == old(times)[next.msg.number := old(times)[next.msg.number] + [now]]
    {
      var num := SeqNum(next.msg);
      if num in acknowledged {
        acknowledged := acknowledged - {num};
        resend := None;
      } else {
        resend := Some(next.msg);
        Retry(next, now);
      }
    }

    /** Takes the entry on top, whose timer has expired. */
    method PopDue(now: nat) returns (next: Entry)
      requires Valid() && scheduled != [] && scheduled[0].timer.retryAt <= now
      modifies this`scheduled
      ensures Valid() && Timed(next) && IsSyn(next.msg) && next == old(scheduled)[0]
      ensures forall e :: e in scheduled ==> e.msg.number != next.msg.number
      ensures forall f :: f in incoming.inner && IsSyn(f) ==> f.number != next.msg.number
      ensures Contents(scheduled) == old(Contents(scheduled)) - multiset{next.msg}
      ensures old(Contents(scheduled)) == Contents(scheduled) + multiset{next.msg}
      ensures old(Due(scheduled, now)) == Due(scheduled, now) + 1
    {
      next := PopTop();
    }

    method PopTop() returns (next: Entry)
      requires Valid() && scheduled != []
      modifies this`scheduled
      ensures Valid() && Timed(next) && IsSyn(next.msg)
      ensures next == old(scheduled)[0] && scheduled == old(scheduled)[1..]
      ensures forall e :: e in scheduled ==> e.msg.number != next.msg.number
      ensures forall f :: f in incoming.inner && IsSyn(f) ==> f.number != next.msg.number
      ensures old(Contents(scheduled)) == Contents(scheduled) + multiset{next.msg}
    {
      next := scheduled[0];
      TopOf(scheduled);
      scheduled := scheduled[1..];
    }

    /** Waits for an item until the earliest timer expires; does not wait if it already has. */
    method TryPop(now: nat) returns (item: Option<Frame>)
      requires Valid()
      modifies incoming
      ensures var polls := scheduled == [] || scheduled[0].timer.retryAt > now;
        if polls && old(incoming.inner) != [] then
          item == Some(old(incoming.inner)[0]) && incoming.inner == old(incoming.inner)[1..]
        else
          item == None && incoming.inner == old(incoming.inner)
    {
      if scheduled == [] {
        item := incoming.TryPop();
        return;
      }
      if scheduled[0].timer.retryAt > now {
        item := incoming.TryPop();
        return;
      }
      return None;
    }

    /** One iteration of the loop. `now` is the clock when it starts and `later` the clock when it acts;
        without an item it acts only after the earliest timer expired. */
    method Step(now: nat, later: nat) returns (resend: Option<Frame>)
      requires Valid() && now <= later
      requires incoming.inner == [] && scheduled != [] ==> scheduled[0].timer.retryAt <= later
      modifies this, incoming
      ensures Valid()
      ensures Turned(old(Sends(0)), Timetable(old(scheduled), old(times)), now, later, Sends(0), times, resend)
      ensures old(scheduled) != [] && (old(scheduled)[0].timer.retryAt <= now || old(incoming.inner) == []) ==>
                Due(scheduled, later) + 1 == old(Due(scheduled, later)) && incoming.inner == old(incoming.inner)
    {
      assert scheduled != [] ==> scheduled[0] in scheduled && Timed(scheduled[0]);
      ghost var before, plan := Sends(0), Timetable(scheduled, times);
      var maybeItem := TryPop(now);
      if maybeItem == None {
        resend := HandleTimeout(later);
        TimeoutIsTurn(before, plan, now, later, Sends(0), times, resend);
        return;
      }
      Accept(maybeItem.value, later);
      resend := None;
      TakingIsTurn(before, plan, now, later, Sends(0), times);
    }

    ghost function Standing(): Retransmission.Standing
      reads this
    {
      Retransmission.Standing(Contents(scheduled), acknowledged, times)
    }

    lemma StandingIsWellFormed()
      requires Valid()
      ensures Retransmission.WellFormed(Standing())
    {
      forall f | f in Contents(scheduled)
        ensures Contents(scheduled)[f] == 1 && f.number in times && times[f.number] != []
      {
        OnceInContents(scheduled, f);
        ContentsAre(scheduled, f);
      }
      forall f, g | f in Contents(scheduled) && g in Contents(scheduled) && f.number == g.number
        ensures f == g
      {
        ContentsAre(scheduled, f);
        ContentsAre(scheduled, g);
      }
    }

    lemma TopIsDue(now: nat)
      requires Valid() && scheduled != [] && scheduled[0].timer.retryAt <= now
      ensures var f := scheduled[0].msg;
        f in Contents(scheduled) && IsSyn(f) && SeqNum(f) == f.number
        && Retransmission.IsDue(Standing(), f.number, now)
    {
      assert scheduled[0] in scheduled;
    }

    lemma NothingIsDue(now: nat)
      requires Valid() && (scheduled == [] || scheduled[0].timer.retryAt > now)
      ensures forall f :: f in Contents(scheduled) ==> !Retransmission.IsDue(Standing(), f.number, now)
    {
      forall f | f in Contents(scheduled)
        ensures !Retransmission.IsDue(Standing(), f.number, now)
      {
        ContentsAre(scheduled, f);
      }
    }

    /** The loop while the clock stands still and timers are due: it polls its queue again after as many
        timeouts as timers were due. By then each due entry has been sent again once,
        or has left together with its acknowledgement, and nothing has happened to the others. */
    method CatchUp(now: nat) returns (timeouts: nat, resent: seq<Frame>)
      requires Valid()
      modifies this, incoming
      ensures Valid() && incoming.inner == old(incoming.inner)
      ensures timeouts == old(Due(scheduled, now)) <= old(|scheduled|)
      ensures scheduled == [] || scheduled[0].timer.retryAt > now
      ensures Retransmission.AllCaughtUp(now, old(Standing()), Standing(), resent)
      ensures Retransmission.NothingElse(old(Standing()), Standing(), resent)
    {
      DueBound(scheduled, now);
      StandingIsWellFormed();
      Retransmission.AtFirst(now, Standing());
      timeouts, resent := 0, [];
      while scheduled != [] && scheduled[0].timer.retryAt <= now
        invariant Valid() && incoming.inner == old(incoming.inner)
        invariant timeouts + Due(scheduled, now) == old(Due(scheduled, now))
        invariant Retransmission.OnTheWay(now, old(Standing()), Standing(), resent)
        decreases Due(scheduled, now)
      {
        var again := StepDue(now, resent, old(Standing()));
        resent := resent + again;
        timeouts := timeouts + 1;
      }
      NothingIsDue(now);
      NoneDue(scheduled, now);
      Retransmission.AtLast(now, old(Standing()), Standing(), resent);
    }

    /** One iteration of it. */
    method StepDue(now: nat, ghost resent: seq<Frame>, ghost before: Retransmission.Standing)
      returns (again: seq<Frame>)
      requires Valid() && scheduled != [] && scheduled[0].timer.retryAt <= now && Retransmission.WellFormed(before)
      requires Retransmission.OnTheWay(now, before, Standing(), resent)
      modifies this, incoming
      ensures Valid() && incoming.inner == old(incoming.inner) && Due(scheduled, now) + 1 == old(Due(scheduled, now))
      ensures Retransmission.OnTheWay(now, before, Standing(), resent + again)
    {
      TopIsDue(now);
      ghost var top, was := scheduled[0].msg, Standing();
      var resend := Step(now, now);
      again := if resend.Some? then [resend.value] else [];
      Retransmission.OneTimeout(top, now, before, was, Standing(), resent, again);
    }

    /** Files the item just taken from the queue. */
    method Accept(msg: Frame, now: nat)
      requires EarliestFirst(scheduled) && DistinctNumbers([msg] + incoming.inner, scheduled)
      requires forall e :: e in scheduled ==> IsSyn(e.msg) && Timed(e)
      modifies this
      ensures Valid()
      ensures IsSyn(msg) ==>
                && Contents(scheduled) == old(Contents(scheduled)) + multiset{msg} && acknowledged == old(acknowledged)
                && times == old(times)[msg.number := [now]]
      ensures !IsSyn(msg) ==>
                && scheduled == old(scheduled) && acknowledged == old(acknowledged) + {SeqNum(msg)}
                && times == old(times)
    {
      QueueTail(msg, incoming.inner, scheduled);
      if IsSyn(msg) {
        Enter(msg, now);
      } else {
        acknowledged := acknowledged + {SeqNum(msg)};
      }
    }

    /** Puts an entry into the heap together with its times so far. */
    method Insert(e: Entry, ghost when: seq<nat>)
      requires Valid() && IsSyn(e.msg)
      requires Backoff.OnTime(when) && e.timer == Backoff.After(when)
      requires forall x :: x in scheduled ==> x.msg.number != e.msg.number
      requires forall f :: f in incoming.inner && IsSyn(f) ==> f.number != e.msg.number
      modifies this`scheduled, this`times
      ensures Valid()
      ensures scheduled == Schedule(old(scheduled), e) && times == old(times)[e.msg.number := when]
    {
      ScheduleMembers(scheduled, e);
      ScheduleDistinct(scheduled, e);
      ScheduleEarliestFirst(scheduled, e);
      times := times[e.msg.number := when];
      scheduled := Schedule(scheduled, e);
    }

    /** Schedules a message for its first retransmission. */
    method Enter(msg: Frame, now: nat)
      requires Valid() && IsSyn(msg)
      requires forall e :: e in scheduled ==> e.msg.number != msg.number
      requires forall f :: f in incoming.inner && IsSyn(f) ==> f.number != msg.number
      modifies this`scheduled, this`times
      ensures Valid()
      ensures Contents(scheduled) == old(Contents(scheduled)) + multiset{msg}
      ensures times == old(times)[msg.number := [now]]
    {
      var e := Entry(msg, Backoff.Start(now));
      ScheduleContents(scheduled, e);
      Backoff.StartOnTime(now);
      Insert(e, [now]);
    }

    /** Puts the entry back with its timer doubled. */
    method Retry(next: Entry, now: nat)
      requires Valid() && Timed(next) && IsSyn(next.msg) && next.timer.retryAt <= now
      requires forall e :: e in scheduled ==> e.msg.number != next.msg.number
      requires forall f :: f in incoming.inner && IsSyn(f) ==> f.number != next.msg.number
      modifies this`scheduled, this`times
      ensures Valid()
      ensures Contents(scheduled) == old(Contents(scheduled)) + multiset{next.msg}
      ensures Due(scheduled, now) == old(Due(scheduled, now))
      ensures times == old(times)[next.msg.number := old(times)[next.msg.number] + [now]]
    {
      Backoff.OnTimeSnoc(times[next.msg.number], now);
      Backoff.AfterIsExponential(times[next.msg.number]);
      var again := Entry(next.msg, next.timer.Retry(now));
      ScheduleContents(scheduled, again);
      ScheduleDue(scheduled, again, now);
      Insert(again, times[next.msg.number] + [now]);
    }
  }

  lemma QueueTail(head: Frame, queue: seq<Frame>, heap: seq<Entry>)
    requires DistinctNumbers([head] + queue, heap)
    ensures DistinctNumbers(queue, heap)
    ensures IsSyn(head) ==> forall e :: e in heap ==> e.msg.number != head.number
    ensures IsSyn(head) ==> forall f :: f in queue && IsSyn(f) ==> f.number != head.number
  {
    var whole := [head] + queue;
    assert whole[0] == head && head in whole;
    assert forall i :: 0 <= i < |queue| ==> whole[i + 1] == queue[i];
    forall f | f in queue && IsSyn(f)
      ensures IsSyn(head) ==> f.number != head.number
    {
      var i :| 0 <= i < |queue| && queue[i] == f;
      assert whole[i + 1] == f;
    }
  }

  lemma TopOf(heap: seq<Entry>)
    requires heap != [] && EarliestFirst(heap) && DistinctEntries(heap)
    ensures heap[0] in heap
    ensures forall e :: e in heap[1..] ==> e in heap && e.msg.number != heap[0].msg.number
    ensures EarliestFirst(heap[1..]) && DistinctEntries(heap[1..])
    ensures Contents(heap) == Contents(heap[1..]) + multiset{heap[0].msg}
    ensures Contents(heap) - multiset{heap[0].msg} == Contents(heap[1..])
  {}

  /** What goes out to a peer, and the numbers seen from it. */
  datatype End = End(sender: Sender, seen: set<nat>)

  const UNUSED: End := End(FRESH_SENDER, {})

  /** What a frame from the peer leaves behind: an acknowledgement in the queue, or its number. */
  function AfterFrame(e: End, f: Frame): End {
    if IsSyn(f) then e.(seen := e.seen + {SeqNum(f)}) else e.(sender := NoteAck(e.sender, f))
  }

  /** One iteration of a worker that started at `now` with these entries: it takes an item, or handles the
      entry on top, or finds nothing. */
  ghost predicate Turned(before: Sender, plan: Timetable, now: nat, later: nat, after: Sender,
                         times: map<nat, seq<nat>>, resend: Option<Frame>) {
    && SenderTurned(before, plan.heap, now, after, resend)
    && times == TimesAfter(before, plan, now, later)
  }

  ghost predicate SenderTurned(before: Sender, heap: seq<Entry>, now: nat, after: Sender, resend: Option<Frame>) {
    if (heap == [] || heap[0].timer.retryAt > now) && before.incoming != [] then
      resend == None && after == Take(before)
    else if heap == [] then
      resend == None && after == before
    else
      var msg := heap[0].msg;
      && msg in before.scheduled && after == Expire(before, msg)
      && resend == if SeqNum(msg) in before.acknowledged then None else Some(msg)
  }

  lemma TimeoutIsTurn(before: Sender, plan: Timetable, now: nat, later: nat, after: Sender,
                      times: map<nat, seq<nat>>, resend: Option<Frame>)
    requires plan.heap == [] || plan.heap[0].timer.retryAt <= now || before.incoming == []
    requires plan.heap == [] ==> before.incoming == []
    requires before.scheduled == Contents(plan.heap) && after.next == before.next && after.incoming == before.incoming
    requires plan.heap == [] ==> after == before && resend == None && times == plan.times
    requires plan.heap != [] ==>
               var msg := plan.heap[0].msg;
               && msg.number in plan.times
               && if SeqNum(msg) in before.acknowledged then
                    && after.scheduled == before.scheduled - multiset{msg}
                    && after.acknowledged == before.acknowledged - {SeqNum(msg)}
                    && resend == None && times == plan.times
                  else
                    && after.scheduled == before.scheduled && after.acknowledged == before.acknowledged
                    && resend == Some(msg) && times == plan.times[msg.number := plan.times[msg.number] + [later]]
    ensures Turned(before, plan, now, later, after, times, resend)
  {
    if plan.heap != [] {
      assert plan.heap[0].msg in Contents(plan.heap);
    }
  }

  lemma TakingIsTurn(before: Sender, plan: Timetable, now: nat, later: nat, after: Sender,
                     times: map<nat, seq<nat>>)
    requires before.incoming != [] && (plan.heap == [] || plan.heap[0].timer.retryAt > now)
    requires after.next == before.next && after.incoming == before.incoming[1..]
    requires var msg := before.incoming[0];
      if IsSyn(msg) then
        && after.scheduled == before.scheduled + multiset{msg} && after.acknowledged == before.acknowledged
        && times == plan.times[msg.number := [later]]
      else
        && after.scheduled == before.scheduled && after.acknowledged == before.acknowledged + {SeqNum(msg)}
        && times == plan.times
    ensures Turned(before, plan, now, later, after, times, None)
  {}

  /** The worker does not look at the number that the main thread uses next. */
  lemma UnderAnyNext(before: Sender, plan: Timetable, now: nat, later: nat, after: Sender,
                     times: map<nat, seq<nat>>, resend: Option<Frame>, next: nat)
    requires Turned(before, plan, now, later, after, times, resend)
    ensures Turned(before.(next := next), plan, now, later, after.(next := next), times, resend)
  {}

  /** What the main thread keeps towards one peer: the numbers it has used for sending, and the numbers
      it has seen from the peer. */
  class Peer {
    var nextSeqNum: nat
    const delivered: RollingSet.RollingBitset
    const incoming: ConcurrentQueue<Frame>
    const sender: Worker
    ghost var State: End
    ghost var Repr: set<object>

    ghost predicate Valid()
      reads this, Repr
      ensures Valid() ==> this in Repr
    {
      && {this, incoming, sender, delivered} <= Repr && delivered.Repr <= Repr
      && {this, incoming, sender} !! delivered.Repr
      && sender.incoming == incoming
      && sender.Valid() && delivered.Valid()
      && State == End(sender.Sends(nextSeqNum), delivered.Elems)
      && (forall f :: f in incoming.inner && IsSyn(f) ==> f.number < nextSeqNum)
      && forall e :: e in sender.scheduled ==> e.msg.number < nextSeqNum
    }

    constructor ()
      ensures Valid() && fresh(Repr) && State == UNUSED
    {
      nextSeqNum := 0;
      var queue := new ConcurrentQueue<Frame>();
      incoming := queue;
      sender := new Worker(queue);
      delivered := new RollingSet.RollingBitset();
      State := UNUSED;
      new;
      Repr := {this, incoming, sender} + delivered.Repr;
    }

    /** Sends to the peer: hand the message to the worker and transmit it once. */
    method Send(b: Body) returns (transmit: Frame)
      requires Valid()
      modifies this, incoming
      ensures Valid() && Repr == old(Repr)
      ensures State == old(State).(sender := Issue(old(State).sender, b))
      ensures transmit == Frame(old(State).sender.next, b)
    {
      transmit := Frame(nextSeqNum, b);
      nextSeqNum := nextSeqNum + 1;
      ghost var before := incoming.inner;
      incoming.Push(transmit);
      State := State.(sender := Issue(State.sender, b));
      assert incoming.inner == before + [transmit];
    }

    /** A message to oneself uses up a number and nothing else. */
    method Skip() returns (number: nat)
      requires Valid()
      modifies this
      ensures Valid() && Repr == old(Repr)
      ensures State == old(State).(sender := old(State).sender.(next := old(State).sender.next + 1))
      ensures number == old(State).sender.next
    {
      number := nextSeqNum;
      nextSeqNum := nextSeqNum + 1;
      State := State.(sender := State.sender.(next := State.sender.next + 1));
    }

    /** A frame from the peer: an acknowledgement goes to the worker; a message is handed up if its
        number is new, and is acknowledged in any case. */
    method Deliver(msg: Frame) returns (handUp: bool, reply: Option<Frame>)
      requires Valid()
      modifies this, incoming, delivered.Repr
      ensures Valid() && fresh(Repr - old(Repr)) && old(Repr) <= Repr
      ensures State == AfterFrame(old(State), msg)
      ensures handUp == (IsSyn(msg) && SeqNum(msg) !in old(State).seen)
      ensures reply == if IsSyn(msg) then Some(SetAck(msg)) else None
    {
      if !IsSyn(msg) {
        NoteAcknowledgement(msg);
        return false, None;
      }
      var num := SeqNum(msg);
      handUp := false;
      var seen := delivered.Contains(num);
      if !seen {
        NoteNumber(num);
        handUp := true;
      }
      reply := Some(SetAck(msg));
    }

    method NoteAcknowledgement(msg: Frame)
      requires Valid() && !IsSyn(msg)
      modifies this, incoming
      ensures Valid() && Repr == old(Repr) && State == old(State).(sender := NoteAck(old(State).sender, msg))
    {
      incoming.Push(msg);
      State := State.(sender := NoteAck(State.sender, msg));
    }

    method NoteNumber(num: nat)
      requires Valid()
      modifies this, delivered.Repr
      ensures Valid() && fresh(Repr - old(Repr)) && old(Repr) <= Repr
      ensures State == old(State).(seen := old(State).seen + {num})
    {
      delivered.Insert(num);
      State := State.(seen := State.seen + {num});
      Repr := Repr + delivered.Repr;
    }

    ghost function Plan(): Timetable
      reads this, sender
    {
      Timetable(sender.scheduled, sender.times)
    }

    /** Without an item in the queue, the worker acts only after the earliest timer expired. */
    ghost predicate MayAct(later: nat)
      reads this, incoming, sender
    {
      incoming.inner == [] && sender.scheduled != [] ==> sender.scheduled[0].timer.retryAt <= later
    }

    /** One iteration of the worker. */
    method Work(now: nat, later: nat) returns (resend: Option<Frame>)
      requires Valid() && now <= later && MayAct(later)
      modifies Repr
      ensures Valid() && Repr == old(Repr)
      ensures State == old(State).(sender := State.sender)
      ensures Turned(old(State).sender, old(Plan()), now, later, State.sender, Plan().times, resend)
    {
      ghost var before, heap := State.sender, sender.scheduled;
      resend := Turn(now, later);
      State := State.(sender := sender.Sends(nextSeqNum));
      StillUsed(before, heap, now, State.sender, resend, sender.scheduled);
    }

    method Turn(now: nat, later: nat) returns (resend: Option<Frame>)
      requires sender.incoming == incoming && sender.Valid() && now <= later && MayAct(later)
      modifies sender, incoming
      ensures sender.Valid()
      ensures Turned(old(sender.Sends(nextSeqNum)), old(Plan()), now, later, sender.Sends(nextSeqNum), Plan().times,
                     resend)
    {
      ghost var before, plan := sender.Sends(0), Plan();
      resend := sender.Step(now, later);
      UnderAnyNext(before, plan, now, later, sender.Sends(0), sender.times, resend, nextSeqNum);
    }
  }

  lemma {:induction false} OnceInContents(heap: seq<Entry>, f: Frame)
    requires DistinctEntries(heap)
    ensures Contents(heap)[f] <= 1
  {
    if heap != [] {
      OnceInContents(heap[1..], f);
      if f in Contents(heap[1..]) {
        ContentsAre(heap[1..], f);
        assert f.number != heap[0].msg.number;
      }
    }
  }

  lemma {:induction false} ContentsAre(heap: seq<Entry>, f: Frame)
    ensures f in Contents(heap) <==> exists e :: e in heap && e.msg == f
  {
    if heap != [] {
      ContentsAre(heap[1..], f);
      assert heap == [heap[0]] + heap[1..];
    }
  }

  /** The worker only has numbers that were used. */
  lemma StillUsed(before: Sender, heap: seq<Entry>, now: nat, after: Sender, resend: Option<Frame>, heap': seq<Entry>)
    requires SenderTurned(before, heap, now, after, resend)
    requires before.scheduled == Contents(heap) && after.scheduled == Contents(heap')
    requires forall f :: f in before.incoming && IsSyn(f) ==> f.number < before.next
    requires forall e :: e in heap ==> e.msg.number < before.next
    ensures forall f :: f in after.incoming && IsSyn(f) ==> f.number < before.next
    ensures forall e :: e in heap' ==> e.msg.number < before.next
  {
    forall e | e in heap'
      ensures e.msg.number < before.next
    {
      ContentsAre(heap', e.msg);
      ContentsAre(heap, e.msg);
    }
  }
}
