/** What becomes of the entries of a worker while it handles the timers that have expired. */
module Retransmission {
  import opened Link
  import Backoff

  /** The scheduled messages, the acknowledged numbers, and when each number was transmitted. */
  datatype Standing = Standing(entries: multiset<Frame>, acknowledged: set<nat>, times: map<nat, seq<nat>>)

  ghost predicate WellFormed(s: Standing) {
    && (forall f :: f in s.entries ==> s.entries[f] == 1 && f.number in s.times && s.times[f.number] != [])
    && forall f, g :: f in s.entries && g in s.entries && f.number == g.number ==> f == g
  }

  ghost predicate IsDue(s: Standing, n: nat, now: nat) {
    n in s.times && s.times[n] != [] && Backoff.After(s.times[n]).retryAt <= now
  }

  ghost predicate SameTimes(a: Standing, b: Standing, n: nat) {
    n in a.times && n in b.times && b.times[n] == a.times[n]
  }

  ghost predicate Kept(f: Frame, a: Standing, b: Standing, resent: seq<Frame>) {
    && f in b.entries && f !in resent && SameTimes(a, b, f.number)
    && (f.number in b.acknowledged <==> f.number in a.acknowledged)
  }

  ghost predicate SentAgain(f: Frame, now: nat, a: Standing, b: Standing, resent: seq<Frame>) {
    && f.number !in a.acknowledged && f in b.entries && f in resent
    && f.number in a.times && f.number in b.times && b.times[f.number] == a.times[f.number] + [now]
  }

  ghost predicate Dropped(f: Frame, a: Standing, b: Standing, resent: seq<Frame>) {
    && f.number in a.acknowledged && f !in b.entries && f !in resent && SameTimes(a, b, f.number)
    && f.number !in b.acknowledged
  }

  /** If the timer of `f` had expired, `f` was sent again, or dropped with its acknowledgement; otherwise
      nothing happened to it. */
  ghost predicate CaughtUp(f: Frame, now: nat, a: Standing, b: Standing, resent: seq<Frame>) {
    if !IsDue(a, f.number, now) then Kept(f, a, b, resent)
    else if f.number in a.acknowledged then Dropped(f, a, b, resent)
    else SentAgain(f, now, a, b, resent)
  }

  ghost predicate AllCaughtUp(now: nat, a: Standing, b: Standing, resent: seq<Frame>) {
    forall f :: f in a.entries ==> CaughtUp(f, now, a, b, resent)
  }

  ghost predicate NumberOf(fs: multiset<Frame>, n: nat) {
    exists f :: f in fs && f.number == n
  }

  /** Nothing was sent twice, and nothing but entries was sent, dropped or timed. */
  ghost predicate NothingElse(a: Standing, b: Standing, resent: seq<Frame>) {
    && b.entries <= a.entries && b.acknowledged <= a.acknowledged
    && (forall f :: f in resent ==> f in a.entries)
    && (forall i, j :: 0 <= i < j < |resent| ==> resent[i] != resent[j])
    && (forall n :: n in a.acknowledged && !NumberOf(a.entries, n) ==> n in b.acknowledged)
    && a.times.Keys == b.times.Keys
    && forall n :: n in a.times && !NumberOf(a.entries, n) ==> SameTimes(a, b, n)
  }

  /** Some of the expired timers have been handled. */
  ghost predicate OnTheWay(now: nat, a: Standing, b: Standing, resent: seq<Frame>) {
    && NothingElse(a, b, resent)
    && forall f :: f in a.entries ==> Kept(f, a, b, resent) || CaughtUp(f, now, a, b, resent)
  }

  /** What handling the timer of `f` does. */
  ghost predicate Handles(f: Frame, now: nat, b: Standing, b': Standing, again: seq<Frame>) {
    if f.number in b.acknowledged then
      again == [] && b' == Standing(b.entries - multiset{f}, b.acknowledged - {f.number}, b.times)
    else
      && f.number in b.times && again == [f]
      && b' == b.(times := b.times[f.number := b.times[f.number] + [now]])
  }

  lemma AtFirst(now: nat, a: Standing)
    requires WellFormed(a)
    ensures OnTheWay(now, a, a, [])
  {}

  /** An entry whose timer has expired has not been handled yet. */
  lemma DueIsUnhandled(f: Frame, now: nat, a: Standing, b: Standing, resent: seq<Frame>)
    requires WellFormed(a) && OnTheWay(now, a, b, resent) && f in b.entries && IsDue(b, f.number, now)
    ensures f in a.entries && Kept(f, a, b, resent) && IsDue(a, f.number, now)
  {
    if SentAgain(f, now, a, b, resent) {
      Backoff.RetryIsLater(a.times[f.number], now);
    }
  }

  lemma HandledNow(f: Frame, now: nat, a: Standing, b: Standing, b': Standing, resent: seq<Frame>, again: seq<Frame>)
    requires WellFormed(a) && OnTheWay(now, a, b, resent) && Handles(f, now, b, b', again)
    requires f in a.entries && Kept(f, a, b, resent) && IsDue(a, f.number, now)
    ensures CaughtUp(f, now, a, b', resent + again)
  {
    assert b.entries[f] <= a.entries[f] == 1;
  }

  lemma OthersAsBefore(f: Frame, g: Frame, now: nat, a: Standing, b: Standing, b': Standing, resent: seq<Frame>,
                       again: seq<Frame>)
    requires WellFormed(a) && OnTheWay(now, a, b, resent) && Handles(f, now, b, b', again)
    requires f in a.entries && g in a.entries && g != f
    ensures Kept(g, a, b', resent + again) || CaughtUp(g, now, a, b', resent + again)
  {
    assert g.number != f.number;
    Unnoticed(f, g, now, b, b', resent, again);
  }

  /** Handling `f` changes nothing that concerns another number. */
  lemma Unnoticed(f: Frame, g: Frame, now: nat, b: Standing, b': Standing, resent: seq<Frame>, again: seq<Frame>)
    requires Handles(f, now, b, b', again) && g.number != f.number
    ensures g in b'.entries <==> g in b.entries
    ensures g in resent + again <==> g in resent
    ensures g.number in b'.acknowledged <==> g.number in b.acknowledged
    ensures g.number in b'.times <==> g.number in b.times
    ensures g.number in b.times ==> b'.times[g.number] == b.times[g.number]
  {}

  lemma StillNothingElse(f: Frame, now: nat, a: Standing, b: Standing, b': Standing, resent: seq<Frame>,
                         again: seq<Frame>)
    requires NothingElse(a, b, resent) && Handles(f, now, b, b', again) && f in a.entries && f !in resent
    ensures NothingElse(a, b', resent + again)
  {
    assert NumberOf(a.entries, f.number);
  }

  /** One more expired timer is handled. */
  lemma OneTimeout(f: Frame, now: nat, a: Standing, b: Standing, b': Standing, resent: seq<Frame>, again: seq<Frame>)
    requires WellFormed(a) && OnTheWay(now, a, b, resent) && Handles(f, now, b, b', again)
    requires f in b.entries && IsDue(b, f.number, now)
    ensures OnTheWay(now, a, b', resent + again)
  {
    DueIsUnhandled(f, now, a, b, resent);
    HandledNow(f, now, a, b, b', resent, again);
    StillNothingElse(f, now, a, b, b', resent, again);
    forall g | g in a.entries
      ensures Kept(g, a, b', resent + again) || CaughtUp(g, now, a, b', resent + again)
    {
      if g != f {
        OthersAsBefore(f, g, now, a, b, b', resent, again);
      }
    }
  }

  /** When no timer is left that has expired, all have been handled. */
  lemma AtLast(now: nat, a: Standing, b: Standing, resent: seq<Frame>)
    requires OnTheWay(now, a, b, resent) && forall f :: f in b.entries ==> !IsDue(b, f.number, now)
    ensures AllCaughtUp(now, a, b, resent)
  {
    forall f | f in a.entries
      ensures CaughtUp(f, now, a, b, resent)
    {
      if Kept(f, a, b, resent) {
        assert f in b.entries && SameTimes(a, b, f.number);
      }
    }
  }
}
