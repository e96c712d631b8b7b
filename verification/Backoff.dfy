/** Timers that double, and how seldom they make a message go out again. Times are in milliseconds on a
    clock that does not run backwards. */
module Backoff {
  import opened Bits

  /** Kept by value in the heap entries: taking an entry, retrying and putting it back replaces it. */
  datatype Timer = Timer(timeout: nat, retryAt: nat) {
    function Retry(now: nat): Timer {
      Timer(2 * timeout, now + 2 * timeout)
    }
  }

  const INITIAL_TIMEOUT: nat := 100

  function Start(now: nat): Timer {
    Timer(INITIAL_TIMEOUT, now + INITIAL_TIMEOUT)
  }

  /** The timer of an entry scheduled at `times[0]` and retried at the times after that. */
  function After(times: seq<nat>): Timer
    requires times != []
  {
    if |times| == 1 then Start(times[0])
    else After(times[..|times| - 1]).Retry(times[|times| - 1])
  }

  /** No retry happens before the timer allows it. */
  ghost predicate OnTime(times: seq<nat>) {
    && times != []
    && forall k :: 1 <= k < |times| ==> times[k] >= After(times[..k]).retryAt
  }

  lemma {:induction false} AfterIsExponential(times: seq<nat>)
    requires times != []
    ensures After(times).timeout == 100 * Pow2(|times| - 1)
    ensures After(times).retryAt == times[|times| - 1] + 100 * Pow2(|times| - 1)
  {
    if |times| > 1 {
      AfterIsExponential(times[..|times| - 1]);
    }
  }

  lemma StartOnTime(now: nat)
    ensures OnTime([now]) && After([now]) == Start(now)
  {}

  lemma OnTimeSnoc(times: seq<nat>, now: nat)
    requires OnTime(times) && now >= After(times).retryAt
    ensures OnTime(times + [now]) && After(times + [now]) == After(times).Retry(now)
  {
    var longer := times + [now];
    assert longer[..|times|] == times;
    forall k | 1 <= k < |longer|
      ensures longer[k] >= After(longer[..k]).retryAt
    {
      assert longer[..k] == times[..k];
      assert times[..|times|] == times;
    }
  }

  /** Right after a retry the timer has not expired. */
  lemma RetryIsLater(times: seq<nat>, now: nat)
    requires times != []
    ensures After(times + [now]).retryAt > now
  {
    AfterIsExponential(times + [now]);
  }

  /** Main result: the k-th retransmission happens no earlier than `100 * (2^k - 1)` milliseconds after
      the message was scheduled, so the number of copies is logarithmic in the waiting time. */
  lemma {:induction false} RetransmissionBound(times: seq<nat>, k: nat)
    requires OnTime(times) && k < |times|
    ensures times[k] >= times[0] + 100 * (Pow2(k) - 1)
  {
    if k > 0 {
      RetransmissionBound(times, k - 1);
      AfterIsExponential(times[..k]);
    }
  }
}
