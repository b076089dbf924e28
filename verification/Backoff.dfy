/** The two retry loops of the worker's backend client. */
module Backoff {
  import opened Grid

  const FIRST_DELAY := 5
  const LONGEST_DELAY := 30

  /** How a request ends: with an exception or an error status, or with a body that may say success: false. */
  datatype Reply = Raised | Answered(successFalse: bool)

  /** A status update counts as delivered when the server took it, or refused to move a job to where it already is. */
  predicate Delivers(target: string, r: Reply) {
    r.Answered? && (r.successFalse ==> target in ["done", "failed", "cancelled"])
  }

  /** An update of a terminal status is delivered by any answer, another one by an answer that does not refuse it. */
  lemma DeliversIff(target: string, r: Reply)
    ensures Delivers(target, r) <==>
      r.Answered? && (!r.successFalse || target == "done" || target == "failed" || target == "cancelled")
  {
  }

  // ---------------------------------------------------------------------------
  // Delays
  // ---------------------------------------------------------------------------

  /** The delay after failure n: 5, 10, 20, 30, 30, ... */
  function Delay(n: nat): (d: nat)
    ensures FIRST_DELAY <= d <= LONGEST_DELAY
  {
    if n <= 1 then FIRST_DELAY else Min(Delay(n - 1) * 2, LONGEST_DELAY)
  }

  /** The delays after the first n failures, added up. */
  function Slept(n: nat): nat {
    if n == 0 then 0 else Slept(n - 1) + Delay(n)
  }

  lemma {:induction false} DelaysInClosedForm(n: nat)
    ensures n >= 4 ==> Delay(n) == LONGEST_DELAY
    ensures n >= 3 ==> Slept(n) == 35 + 30 * (n - 3)
    ensures Slept(n) >= 5 * n
  {
    if n > 0 { DelaysInClosedForm(n - 1); }
    if n == 3 {
      assert Delay(2) == 10 && Delay(3) == 20;
      assert Slept(1) == 5 && Slept(2) == 15;
    } else if n == 4 {
      assert Delay(1) == 5 && Delay(2) == 10 && Delay(3) == 20;
    }
  }

  // ---------------------------------------------------------------------------
  // Runs
  // ---------------------------------------------------------------------------

  /** The time since the start at every failure: it never goes back, and a sleep takes at least its delay. */
  ghost predicate IsClock(elapsed: nat -> real) {
    elapsed(1) >= 0.0 && forall k: nat :: k >= 1 ==> elapsed(k + 1) >= elapsed(k) + Delay(k) as real
  }

  /** Failure n leaves time for another attempt. */
  predicate GoesOn(elapsed: nat -> real, deadline: real, n: nat) {
    elapsed(n) + Delay(n) as real < deadline
  }

  /** The first n attempts all failed and left time for another. */
  ghost predicate AllFailed(accepts: nat -> bool, elapsed: nat -> real, deadline: real, n: nat) {
    forall k: nat :: 1 <= k <= n ==> !accepts(k) && GoesOn(elapsed, deadline, k)
  }

  /** The loop ends at attempt n: accepted, or failed too late for another. */
  ghost predicate EndsAt(accepts: nat -> bool, elapsed: nat -> real, deadline: real, n: nat) {
    && n >= 1 && AllFailed(accepts, elapsed, deadline, n - 1)
    && (accepts(n) || !GoesOn(elapsed, deadline, n))
  }

  lemma {:induction false} SleepIsElapsed(elapsed: nat -> real, n: nat)
    requires IsClock(elapsed)
    ensures Slept(n) as real <= elapsed(n + 1)
  {
    if n > 0 { SleepIsElapsed(elapsed, n - 1); }
  }

  /** Total sleep stays below the deadline while the loop goes on. */
  lemma SleepFits(accepts: nat -> bool, elapsed: nat -> real, deadline: real, n: nat)
    requires IsClock(elapsed) && AllFailed(accepts, elapsed, deadline, n) && n >= 1
    ensures Slept(n) as real < deadline
  {
    SleepIsElapsed(elapsed, n - 1);
    assert GoesOn(elapsed, deadline, n);
  }

  /** The loops end at one attempt only. */
  lemma EndIsUnique(accepts: nat -> bool, elapsed: nat -> real, deadline: real, n: nat, m: nat)
    requires EndsAt(accepts, elapsed, deadline, n) && EndsAt(accepts, elapsed, deadline, m)
    ensures n == m
  {
  }

  /** However requests fail, the number of attempts is bounded by the deadline: total sleep before the last attempt stays
      below it, which leaves 22 attempts in 600 seconds and 8 in 180. */
  lemma AttemptsAreBounded(accepts: nat -> bool, elapsed: nat -> real, deadline: real, n: nat)
    requires IsClock(elapsed) && EndsAt(accepts, elapsed, deadline, n)
    ensures n >= 2 ==> Slept(n - 1) as real < deadline
    ensures n >= 4 ==> (35 + 30 * (n - 4)) as real < deadline
    ensures deadline == 600.0 ==> n <= 22
    ensures deadline == 180.0 ==> n <= 8
  {
    DelaysInClosedForm(n - 1);
    if n >= 2 { SleepFits(accepts, elapsed, deadline, n - 1); }
  }

  /** The clock when requests fail at once and sleeps are exact. */
  function ExactClock(n: nat): real {
    if n == 0 then 0.0 else Slept(n - 1) as real
  }

  lemma {:induction false} SleptGrows(m: nat, n: nat)
    requires m <= n
    ensures Slept(m) <= Slept(n)
  {
    if m < n { SleptGrows(m, n - 1); }
  }

  /** The bound is reached: with such a clock and only failures, the loop ends at the first attempt whose sleeps, added up,
      reach the deadline. */
  lemma BoundIsReached(deadline: real, n: nat)
    requires n >= 1 && (n >= 2 ==> Slept(n - 1) as real < deadline) && deadline <= Slept(n) as real
    ensures IsClock(ExactClock) && EndsAt(_ => false, ExactClock, deadline, n)
  {
    forall k: nat | k >= 1 ensures ExactClock(k) + Delay(k) as real == Slept(k) as real == ExactClock(k + 1) {
    }
    forall k: nat | 1 <= k <= n - 1 ensures GoesOn(ExactClock, deadline, k) {
      SleptGrows(k, n - 1);
    }
  }

  /** 22 attempts in 600 seconds and 8 in 180 do happen. */
  lemma TwentyTwoAndEight()
    ensures EndsAt(_ => false, ExactClock, 600.0, 22) && EndsAt(_ => false, ExactClock, 180.0, 8)
  {
    DelaysInClosedForm(22);
    DelaysInClosedForm(21);
    DelaysInClosedForm(8);
    DelaysInClosedForm(7);
    BoundIsReached(600.0, 22);
    BoundIsReached(180.0, 8);
  }

  // ---------------------------------------------------------------------------
  // The loops
  // ---------------------------------------------------------------------------

  /** _put_status: returns only after a delivered update; otherwise raises the last exception. */
  method PutStatus(target: string, replies: nat -> Reply, elapsed: nat -> real, deadline: real)
    returns (delivered: bool, attempt: nat)
    requires IsClock(elapsed)
    ensures EndsAt((k: nat) => Delivers(target, replies(k)), elapsed, deadline, attempt)
    ensures delivered == Delivers(target, replies(attempt))
  {
    ghost var accepts := (k: nat) => Delivers(target, replies(k));
    var delay := FIRST_DELAY;
    attempt := 0;
    while true
      invariant delay == Delay(attempt + 1)
      invariant AllFailed(accepts, elapsed, deadline, attempt)
      decreases deadline.Floor - attempt
    {
      attempt := attempt + 1;
      var reply := replies(attempt);
      if reply.Answered? {
        if !reply.successFalse { return true, attempt; }
        if target in ["done", "failed", "cancelled"] { return true, attempt; }
      }
      if elapsed(attempt) + delay as real >= deadline { break; }
      AttemptBelowDeadline(accepts, elapsed, deadline, attempt);
      delay := Min(delay * 2, LONGEST_DELAY);
    }
    return false, attempt;
  }

  lemma AttemptBelowDeadline(accepts: nat -> bool, elapsed: nat -> real, deadline: real, n: nat)
    requires IsClock(elapsed) && n >= 1 && AllFailed(accepts, elapsed, deadline, n)
    ensures n <= deadline.Floor
  {
    SleepFits(accepts, elapsed, deadline, n);
    DelaysInClosedForm(n);
  }

  /** _post_with_retry: returns a response without error status, or raises the last exception. */
  method PostWithRetry(replies: nat -> Reply, elapsed: nat -> real, deadline: real) returns (ok: bool, attempt: nat)
    requires IsClock(elapsed)
    ensures EndsAt((k: nat) => replies(k).Answered?, elapsed, deadline, attempt)
    ensures ok == replies(attempt).Answered?
  {
    ghost var accepts := (k: nat) => replies(k).Answered?;
    var delay := FIRST_DELAY;
    attempt := 0;
    while true
      invariant delay == Delay(attempt + 1)
      invariant AllFailed(accepts, elapsed, deadline, attempt)
      decreases deadline.Floor - attempt
    {
      attempt := attempt + 1;
      if replies(attempt).Answered? { return true, attempt; }
      if elapsed(attempt) + delay as real >= deadline { break; }
      AttemptBelowDeadline(accepts, elapsed, deadline, attempt);
      delay := Min(delay * 2, LONGEST_DELAY);
    }
    return false, attempt;
  }
}
