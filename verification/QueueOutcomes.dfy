/** What the calls leave of a job, told by the job's own fields, over whole runs of the queue. */
module QueueOutcomes {
  import opened Outcomes
  import opened QueueJobs
  import opened QueueRuns
  import BackoffDelays

  /** Everything about a job that no report changes: what it is for, its budget, its rank and its caps. */
  predicate SameWork(a: Job, b: Job) {
    && a.id == b.id && a.kind == b.kind && a.payload == b.payload && a.metadata == b.metadata
    && a.attempts == b.attempts && a.maxAttempts == b.maxAttempts && a.retryDelay == b.retryDelay
    && a.priority == b.priority && a.seqNo == b.seqNo && a.createdAt == b.createdAt && a.startedAt == b.startedAt
    && a.concurrencyKey == b.concurrencyKey && a.concurrencyLimit == b.concurrencyLimit
    && a.cancelRequested == b.cancelRequested
  }

  // ---- reports ---------------------------------------------------------------------

  /** Completed with its output, or cancelled if that was asked for meanwhile; either way over, and not leased. */
  predicate EndedWell(before: Job, after: Job, output: Option<string>, clock: int) {
    && (after.status == Completed <==> !before.cancelRequested)
    && (after.status == Cancelled <==> before.cancelRequested)
    && after.output == output
    && after.completedAt == Some(clock / 1_000_000) && after.leaseExpiresAt.None?
    && after.lastError == before.lastError
    && SameWork(before, after)
  }

  /** The first 2000 characters of a text. */
  predicate Beginning(part: Option<string>, text: string) {
    part.Some? && part.value <= text && |part.value| == if |text| < 2000 then |text| else 2000
  }

  /** Cancelled if that was asked for; otherwise pending again while attempts are left, and dead-lettered once
      there are none. The reason is kept, and nobody holds the job. */
  predicate EndedBadly(before: Job, after: Job, error: string, clock: int) {
    && (after.status == Cancelled <==> before.cancelRequested)
    && (after.status == Pending <==> !before.cancelRequested && before.attempts < before.maxAttempts)
    && (after.status == Failed <==> !before.cancelRequested && before.attempts >= before.maxAttempts)
    && (after.status == Pending ==> WaitsItsDelay(before, after.runAt, clock))
    && (after.status == Failed ==> after.deadLetter && after.error == after.lastError)
    && (after.status != Pending ==> after.completedAt == Some(clock / 1_000_000) && after.runAt == before.runAt)
    && Beginning(after.lastError, error)
    && after.workerId.None? && after.leaseExpiresAt.None?
    && after.output == before.output
    && SameWork(before, after)
  }

  /** The delay the job was given, or one between 5 and 300 seconds that doubles from attempt to attempt. */
  predicate WaitsItsDelay(job: Job, due: Stamp, clock: int) {
    && (job.retryDelay.Some? ==> due == (clock + job.retryDelay.value) / 1_000_000)
    && (job.retryDelay.None? && job.attempts >= 1 ==>
          && clock / 1_000_000 + 5 <= due <= clock / 1_000_000 + 300
          && (job.attempts <= 6 ==> due == clock / 1_000_000 + 5 * Pow2(job.attempts - 1)))
  }

  lemma DelayIsWaited(job: Job, clock: int)
    ensures WaitsItsDelay(job, IsoPlus(clock, RetryDelay(job)), clock)
  {
    if job.retryDelay.None? && job.attempts >= 1 {
      var wait := Backoff(job.attempts);
      BackoffDelays.BackoffGrowsWithinBounds(job.attempts, job.attempts);
      BackoffDelays.CapFromTheSeventh(job.attempts);
      assert (clock + wait * MICROS) / MICROS == clock / MICROS + wait;
    }
  }

  lemma CompletionEndsWell(job: Job, worker: WorkerId, output: Option<string>, clock: int)
    requires Holds(job, worker)
    ensures Complete(job, worker, output, clock).Ok?
    ensures EndedWell(job, Complete(job, worker, output, clock).value, output, clock)
  {
  }

  lemma FailureEndsBadly(job: Job, worker: WorkerId, error: string, clock: int)
    requires Holds(job, worker)
    ensures Fail(job, worker, error, clock).Ok?
    ensures EndedBadly(job, Fail(job, worker, error, clock).value, error, clock)
  {
    DelayIsWaited(job, clock);
    hide RetryDelay, WaitsItsDelay;
  }

  /** A report of the worker with the latest claim ends its hold as the report says. */
  lemma ReportsEndTheHold(states: seq<Jobs>, calls: seq<Call>, n: nat)
    requires Run(states, calls) && n < |calls| && (calls[n].CompleteCall? || calls[n].FailCall?)
    requires HasLatestClaim(states, calls, n, calls[n].id, calls[n].worker)
    ensures var id := calls[n].id;
            && id in states[n] && id in states[n + 1]
            && (calls[n].CompleteCall? ==>
                  EndedWell(states[n][id], states[n + 1][id], calls[n].output, calls[n].clock))
            && (calls[n].FailCall? ==>
                  EndedBadly(states[n][id], states[n + 1][id], calls[n].error, calls[n].clock))
  {
    hide EndedWell, EndedBadly, HasLatestClaim, Holds, Complete, Fail;
    Fencing(states, calls, n, calls[n].id, calls[n].worker);
    assert states[n + 1] == Next(states[n], calls[n]);
    var job := states[n][calls[n].id];
    if calls[n].CompleteCall? {
      CompletionEndsWell(job, calls[n].worker, calls[n].output, calls[n].clock);
    } else {
      FailureEndsBadly(job, calls[n].worker, calls[n].error, calls[n].clock);
    }
  }

  // ---- cancellation ----------------------------------------------------------------

  /** A cancel is carried out at once unless a worker holds the job and it is not forced: then the worker
      keeps the job and its lease, and the job is flagged. A job that is over is not touched. */
  lemma CancelTakesEffect(states: seq<Jobs>, calls: seq<Call>, m: nat, id: JobId)
    requires Run(states, calls) && m < |calls| && calls[m].CancelCall? && calls[m].id == id && id in states[m]
    ensures id in states[m + 1]
    ensures var job, after := states[m][id], states[m + 1][id];
            && (Settled(job) ==> states[m + 1] == states[m])
            && (!Settled(job) ==> after.cancelRequested)
            && (!Settled(job) && (job.status == Pending || calls[m].force) ==>
                  && after.status == Cancelled && after.workerId.None? && after.leaseExpiresAt.None?
                  && after.completedAt == Some(calls[m].clock / 1_000_000))
            && (!Settled(job) && job.status != Pending && !calls[m].force ==>
                  && (exists worker :: Held(states[m], id, worker) && Held(states[m + 1], id, worker))
                  && after.leaseExpiresAt == job.leaseExpiresAt && after.attempts == job.attempts)
  {
    assert states[m + 1] == Next(states[m], calls[m]);
    RunKeepsInv(states, calls, m);
    var job := states[m][id];
    if job.status == Running && !calls[m].force {
      assert Held(states[m], id, job.workerId.value) && Held(states[m + 1], id, job.workerId.value);
    }
  }

  /** Once a cancel was accepted the job never completes, unless it is retried, and whichever worker reports
      on it and is heard leaves it cancelled. */
  lemma CancelledNeverCompletes(states: seq<Jobs>, calls: seq<Call>, m: nat, n: nat, id: JobId)
    requires Run(states, calls) && m < n < |states|
    requires calls[m].CancelCall? && calls[m].id == id && id in states[m] && !Settled(states[m][id])
    requires forall i | m < i < n :: !(calls[i].RetryCall? && calls[i].id == id)
    ensures id in states[n] && states[n][id].status != Completed
    ensures n < |calls| && (calls[n].CompleteCall? || calls[n].FailCall?) && calls[n].id == id
            && Held(states[n], id, calls[n].worker) ==>
              id in states[n + 1] && states[n + 1][id].status == Cancelled
  {
    hide Next, Possible;
    CancelTakesEffect(states, calls, m, id);
    CancelRequestSticks(states, calls, m + 1, n, id);
    if n < |calls| && (calls[n].CompleteCall? || calls[n].FailCall?) && calls[n].id == id
       && Held(states[n], id, calls[n].worker) {
      Fencing(states, calls, n, id, calls[n].worker);
      ReportsEndTheHold(states, calls, n);
    }
  }

  // ---- new jobs --------------------------------------------------------------------

  predicate Enqueues(js: Jobs, call: Call, id: JobId) {
    call.EnqueueCall? && id == IdFor(call.req, call.newId) && id !in js && id in Next(js, call)
  }

  predicate Takes(js: Jobs, call: Call, id: JobId) {
    call.ClaimCall? && call.ask.worker != "" && id in call.picks && id in js && !call.ask.Foreign(js[id])
  }

  /** Waiting for its first claim: as it was asked for, and due when it was asked to be. */
  predicate Fresh(job: Job, req: Request, clock: int, seqNo: nat) {
    && (job.status == Pending || job.status == Cancelled)
    && job.attempts == 0 && job.maxAttempts == (if req.maxAttempts >= 1 then req.maxAttempts else 1)
    && job.runAt == (clock + req.delay) / 1_000_000
    && job.priority == req.priority && job.seqNo == seqNo
    && job.kind == req.kind && job.payload == req.payload && job.metadata == req.metadata
    && job.retryDelay == req.retryDelay && job.concurrencyKey == req.concurrencyKey
    && (job.concurrencyLimit == req.concurrencyLimit || (req.concurrencyLimit == Some(0) && job.concurrencyLimit.None?))
  }

  lemma NewIsFresh(js: Jobs, call: Call, id: JobId)
    requires Enqueues(js, call, id)
    ensures Fresh(Next(js, call)[id], call.req, call.clock, call.seqNo)
    ensures Next(js, call)[id].status == Pending && !Next(js, call)[id].cancelRequested
  {
    NewJobsAreFresh(js, call, id);
  }

  /** Every field of a waiting job that `Fresh` speaks of. */
  predicate StillWaits(job: Job, after: Job) {
    && (after.status == Pending || after.status == Cancelled)
    && after.attempts == job.attempts && after.maxAttempts == job.maxAttempts && after.runAt == job.runAt
    && after.priority == job.priority && after.seqNo == job.seqNo && after.kind == job.kind
    && after.payload == job.payload && after.metadata == job.metadata && after.retryDelay == job.retryDelay
    && after.concurrencyKey == job.concurrencyKey && after.concurrencyLimit == job.concurrencyLimit
  }

  lemma WaitsOn(job: Job, call: Call)
    requires JobInv(job) && (job.status == Pending || job.status == Cancelled) && !call.RetryCall?
    requires call.ClaimCall? && call.ask.worker != "" && job.id in call.picks ==> call.ask.Foreign(job)
    requires PicksPending(job, call)
    ensures StillWaits(job, JobNext(job, call))
  {
    if call.ClaimCall? {
      assert Reaped(job, call.ask.Now()) == job;
      hide Reaped;
    } else {
      hide Backoff, RetryDelay, Truncated, Iso, IsoPlus;
    }
  }

  lemma {:induction false} WaitsForItsFirstClaim(states: seq<Jobs>, calls: seq<Call>, m: nat, n: nat, id: JobId)
    requires Run(states, calls) && m < n < |states| && Enqueues(states[m], calls[m], id)
    requires forall i | m < i < n ::
               !(calls[i].RetryCall? && calls[i].id == id) && !Takes(states[i], calls[i], id)
    ensures id in states[n] && Fresh(states[n][id], calls[m].req, calls[m].clock, calls[m].seqNo)
  {
    hide Next, Possible, JobNext;
    if n == m + 1 {
      NewIsFresh(states[m], calls[m], id);
    } else {
      WaitsForItsFirstClaim(states, calls, m, n - 1, id);
      hide Enqueues;
      RunKeepsInv(states, calls, n - 1);
      NextIsJobNext(states[n - 1], calls[n - 1], id);
      ClaimsArePending(states[n - 1], calls[n - 1], id);
      if calls[n - 1].EnqueueCall? || calls[n - 1].ClaimCall? || calls[n - 1].id == id {
        WaitsOn(states[n - 1][id], calls[n - 1]);
      }
    }
  }

  /** The first claim of a job comes no sooner than the delay it was enqueued with, and is open to its type:
      until then the job keeps its rank and its whole budget. */
  lemma FirstClaimIsDue(states: seq<Jobs>, calls: seq<Call>, m: nat, n: nat, id: JobId)
    requires Run(states, calls) && m < n < |calls| && Enqueues(states[m], calls[m], id)
    requires forall i | m < i < n ::
               !(calls[i].RetryCall? && calls[i].id == id) && !Takes(states[i], calls[i], id)
    requires Takes(states[n], calls[n], id)
    ensures calls[n].ask.clock / 1_000_000 >= (calls[m].clock + calls[m].req.delay) / 1_000_000
    ensures states[n][id].priority == calls[m].req.priority && states[n][id].attempts == 0
    ensures calls[n].ask.types.Some? && calls[n].ask.types.value != [] ==> calls[m].req.kind in calls[n].ask.types.value
  {
    hide Next, Possible, Enqueues;
    WaitsForItsFirstClaim(states, calls, m, n, id);
    RunKeepsInv(states, calls, n);
    ClaimsArePending(states[n], calls[n], id);
    assert Reaped(states[n][id], calls[n].ask.Now()) == states[n][id];
  }

  // ---- expired leases --------------------------------------------------------------

  /** Without an attempt left the job is dead-lettered; otherwise it is pending again, due at once. */
  predicate LostItsLease(before: Job, after: Job, now: Stamp) {
    && after.workerId.None? && after.leaseExpiresAt.None?
    && SameWork(before, after)
    && if before.attempts >= before.maxAttempts
       then
         && after.status == Failed && after.deadLetter
         && after.error == Some("lease expired") && after.completedAt == Some(now)
       else after.status == Pending && after.runAt == now && after.lastError == Some("lease expired")
  }

  lemma ReapTakesTheLease(job: Job, now: Stamp)
    requires JobInv(job)
    ensures if job.status == Running && job.leaseExpiresAt.value <= now
            then LostItsLease(job, Reaped(job, now), now) else Reaped(job, now) == job
  {
  }

  /** Every claim first takes the jobs away whose lease is over, whoever holds them: those without attempts left
      are dead-lettered, the others pend and may be claimed by the same call. A lease that still runs is safe. */
  lemma ExpiredLeasesAreTaken(states: seq<Jobs>, calls: seq<Call>, n: nat, id: JobId)
    requires Run(states, calls) && n < |calls| && calls[n].ClaimCall? && calls[n].ask.worker != ""
    requires id in states[n] && states[n][id].status == Running
    ensures states[n][id].leaseExpiresAt.Some? && id in states[n + 1]
    ensures var job, after, now := states[n][id], states[n + 1][id], calls[n].ask.clock / 1_000_000;
            if job.leaseExpiresAt.value > now then after == job
            else if job.attempts >= job.maxAttempts || id !in calls[n].picks then LostItsLease(job, after, now)
            else Takes(states[n], calls[n], id) ==> Holds(after, calls[n].ask.worker)
                                                    && after.attempts == job.attempts + 1
  {
    hide Next, Possible, LostItsLease;
    assert Possible(states[n], calls[n]) && states[n + 1] == Next(states[n], calls[n]);
    RunKeepsInv(states, calls, n);
    ReapTakesTheLease(states[n][id], calls[n].ask.Now());
    NextIsJobNext(states[n], calls[n], id);
    ClaimsArePending(states[n], calls[n], id);
    ForeignAfterReap(states[n][id], calls[n].ask);
  }
}
