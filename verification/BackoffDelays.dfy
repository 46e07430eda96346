/** How long the default backoff makes a failing job wait. */
module BackoffDelays {
  import opened Outcomes
  import opened QueueJobs

  lemma {:induction false} Pow2Grows(m: nat, n: nat)
    requires m <= n
    ensures 1 <= Pow2(m) <= Pow2(n)
  {
    if m < n {
      Pow2Grows(m, n - 1);
    } else if n > 0 {
      Pow2Grows(m - 1, n - 1);
    }
  }

  /** The delay never shrinks from one attempt to a later one, and stays between base and cap. */
  lemma BackoffGrowsWithinBounds(a: nat, b: nat)
    requires 1 <= a <= b
    ensures BACKOFF_BASE_SECONDS <= Backoff(a) <= Backoff(b) <= BACKOFF_CAP_SECONDS
  {
    Pow2Grows(a - 1, b - 1);
  }

  /** The cap is reached at the seventh attempt and not before. */
  lemma CapFromTheSeventh(a: nat)
    requires a >= 1
    ensures Backoff(a) == BACKOFF_CAP_SECONDS <==> a >= 7
  {
    assert Pow2(6) == 64 && Pow2(5) == 32;
    if a >= 7 {
      Pow2Grows(6, a - 1);
    } else {
      Pow2Grows(a - 1, 5);
    }
  }

  /** Seconds waited after the first `k` failures. */
  function TotalWait(k: nat): int {
    if k == 0 then 0 else TotalWait(k - 1) + Backoff(k)
  }

  lemma {:induction false} TotalWaitIs(k: nat)
    ensures k <= 6 ==> TotalWait(k) == 5 * (Pow2(k) - 1)
    ensures k >= 6 ==> TotalWait(k) == 315 + 300 * (k - 6)
  {
    assert Pow2(6) == 64;
    if k > 0 {
      TotalWaitIs(k - 1);
      CapFromTheSeventh(k);
      if k <= 6 {
        Pow2Grows(k - 1, 5);
        assert Pow2(5) == 32;
      }
    }
  }

  /** When a job under default backoff comes back from its `a`-th failure it is due exactly that
      much later, and the queue remembers why it failed. */
  lemma FailedAttemptWaits(job: Job, worker: WorkerId, error: string, clock: int)
    requires Holds(job, worker) && 1 <= job.attempts < job.maxAttempts && !job.cancelRequested && job.retryDelay.None?
    ensures var r := Fail(job, worker, error, clock);
            && r.Ok? && r.value.status == Pending && r.value.attempts == job.attempts
            && r.value.runAt == Iso(clock) + TotalWait(job.attempts) - TotalWait(job.attempts - 1)
            && r.value.lastError.Some? && r.value.lastError.value <= error && r.value.workerId.None?
  {
    var wait := Backoff(job.attempts);
    assert Iso(clock + wait * MICROS) == Iso(clock) + wait;
  }
}
