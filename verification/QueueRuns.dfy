/** Whole runs of the queue: any sequence of calls, from an empty directory, with any clocks. */
module QueueRuns {
  import opened Outcomes
  import opened QueueJobs

  datatype Call =
    | EnqueueCall(req: Request, newId: JobId, clock: int, seqNo: nat, admit: Result<()>)
    | ClaimCall(ask: Ask, picks: seq<JobId>)
    | HeartbeatCall(id: JobId, worker: WorkerId, extend: int, clock: int)
    | CompleteCall(id: JobId, worker: WorkerId, output: Option<string>, clock: int)
    | FailCall(id: JobId, worker: WorkerId, error: string, clock: int)
    | CancelCall(id: JobId, force: bool, clock: int)
    | RetryCall(id: JobId, clock: int, seqNo: nat)

  function Next(js: Jobs, call: Call): Jobs {
    match call
    case EnqueueCall(req, newId, clock, seqNo, admit) => Enqueue(js, req, newId, clock, seqNo, admit).0
    case ClaimCall(ask, picks) =>
      if ask.worker == "" then js else AfterClaim(Reap(js, ask.Now()), picks, ask)
    case HeartbeatCall(id, worker, extend, clock) =>
      if id in js then Stored(js, id, Heartbeat(js[id], worker, extend, clock)) else js
    case CompleteCall(id, worker, output, clock) =>
      if id in js then Stored(js, id, Complete(js[id], worker, output, clock)) else js
    case FailCall(id, worker, error, clock) =>
      if id in js then Stored(js, id, Fail(js[id], worker, error, clock)) else js
    case CancelCall(id, force, clock) =>
      if id in js then js[id := Cancel(js[id], force, clock)] else js
    case RetryCall(id, clock, seqNo) =>
      if id in js then Stored(js, id, Retry(js[id], clock, seqNo)) else js
  }

  /** A generated id is new, and the picks of a claim are picks the loop could have made. */
  ghost predicate Possible(js: Jobs, call: Call) {
    match call
    case EnqueueCall(_, newId, _, _, _) => newId !in js
    case ClaimCall(ask, picks) => ask.worker != "" ==> Finished(Reap(js, ask.Now()), picks, ask)
    case _ => true
  }

  ghost predicate Run(states: seq<Jobs>, calls: seq<Call>) {
    && |states| == |calls| + 1
    && states[0] == map[]
    && forall i | 0 <= i < |calls| :: Possible(states[i], calls[i]) && states[i + 1] == Next(states[i], calls[i])
  }

  // ---- one call, seen from one job -------------------------------------------------

  function JobNext(job: Job, call: Call): Job {
    match call
    case EnqueueCall(_, _, _, _, _) => job
    case ClaimCall(ask, picks) =>
      if ask.worker == "" then job
      else
        var reaped := Reaped(job, ask.Now());
        if job.id !in picks then reaped
        else
          var taken := Taken(reaped, ask.worker, ask.Now(), ask.Lease());
          if ask.Foreign(reaped) then HandedBack(taken) else taken
    case HeartbeatCall(_, worker, extend, clock) => Kept(job, Heartbeat(job, worker, extend, clock))
    case CompleteCall(_, worker, output, clock) => Kept(job, Complete(job, worker, output, clock))
    case FailCall(_, worker, error, clock) => Kept(job, Fail(job, worker, error, clock))
    case CancelCall(_, force, clock) => Cancel(job, force, clock)
    case RetryCall(_, clock, seqNo) => Kept(job, Retry(job, clock, seqNo))
  }

  function Kept(job: Job, r: Result<Job>): Job {
    if r.Ok? then r.value else job
  }

  lemma {:induction false} PicksWerePending(js: Jobs, picks: seq<JobId>, ask: Ask)
    requires Picked(js, picks, ask) && forall p | p in picks :: p in js
    ensures forall p | p in picks ::
      js[p].status == Pending && TypeAllowed(ask.types, js[p]) && js[p].runAt <= ask.Now()
    ensures forall i, j | 0 <= i < j < |picks| :: picks[i] != picks[j]
    ensures |picks| <= MAX_CLAIM_LIMIT
  {
    if picks != [] {
      var before, id := picks[..|picks| - 1], picks[|picks| - 1];
      PicksWerePending(js, before, ask);
      assert Holding(js, before, ask)[id].status == Pending;
    }
  }

  /** A call on other jobs leaves this job alone; any other call does to it what `JobNext` says. */
  lemma NextIsJobNext(js: Jobs, call: Call, id: JobId)
    requires Possible(js, call) && id in js && js[id].id == id
    ensures id in Next(js, call)
    ensures Next(js, call)[id] ==
            if call.EnqueueCall? || call.ClaimCall? || call.id == id then JobNext(js[id], call) else js[id]
  {
  }

  lemma IdIsKept(job: Job, call: Call)
    ensures JobNext(job, call).id == job.id
  {
    if call.ClaimCall? {
      assert Reaped(job, call.ask.Now()).id == job.id;
      hide Reaped;
    } else {
      hide Backoff, RetryDelay, Truncated, Iso, IsoPlus;
    }
  }

  lemma KindIsKept(job: Job, call: Call)
    ensures JobNext(job, call).kind == job.kind
  {
    if call.ClaimCall? {
      assert Reaped(job, call.ask.Now()).kind == job.kind;
      hide Reaped;
    } else {
      hide Backoff, RetryDelay, Truncated, Iso, IsoPlus;
    }
  }

  lemma PayloadIsKept(job: Job, call: Call)
    ensures JobNext(job, call).payload == job.payload
  {
    if call.ClaimCall? {
      assert Reaped(job, call.ask.Now()).payload == job.payload;
      hide Reaped;
    } else {
      hide Backoff, RetryDelay, Truncated, Iso, IsoPlus;
    }
  }

  lemma MetadataIsKept(job: Job, call: Call)
    ensures JobNext(job, call).metadata == job.metadata
  {
    if call.ClaimCall? {
      assert Reaped(job, call.ask.Now()).metadata == job.metadata;
      hide Reaped;
    } else {
      hide Backoff, RetryDelay, Truncated, Iso, IsoPlus;
    }
  }

  /** No call changes what a job is for: its type, its payload, its tags. */
  lemma ContentIsKept(js: Jobs, call: Call, id: JobId)
    requires Possible(js, call) && id in js && js[id].id == id
    ensures id in Next(js, call)
    ensures var after := Next(js, call)[id];
            after.kind == js[id].kind && after.payload == js[id].payload && after.metadata == js[id].metadata
  {
    hide JobNext, Next, Possible;
    NextIsJobNext(js, call, id);
    KindIsKept(js[id], call);
    PayloadIsKept(js[id], call);
    MetadataIsKept(js[id], call);
  }

  /** Only an enqueue adds a job, and it adds a fresh one. */
  lemma NewJobsAreFresh(js: Jobs, call: Call, id: JobId)
    requires id !in js && id in Next(js, call)
    ensures call.EnqueueCall? && id == IdFor(call.req, call.newId)
    ensures Next(js, call)[id] == NewJob(call.req, id, call.clock, call.seqNo)
  {
  }

  // ---- the invariant ---------------------------------------------------------------

  ghost predicate JobInv(job: Job) {
    && 1 <= job.maxAttempts
    && job.attempts <= job.maxAttempts
    && (job.status == Pending ==> job.attempts < job.maxAttempts && job.workerId.None?)
    && (job.status == Running ==> job.attempts >= 1 && job.workerId.Some? && job.leaseExpiresAt.Some?)
    && (job.status != Running ==> job.leaseExpiresAt.None?)
    && (job.deadLetter <==> job.status == Failed)
    && (job.error.Some? <==> job.status == Failed)
    && (job.status == Completed ==> !job.cancelRequested)
  }

  ghost predicate Inv(js: Jobs) {
    forall id | id in js :: js[id].id == id && JobInv(js[id])
  }

  lemma JobNextKeepsInv(job: Job, call: Call)
    requires JobInv(job)
    requires PicksPending(job, call)
    ensures JobInv(JobNext(job, call))
    ensures JobNext(job, call).id == job.id
  {
  }

  lemma NextKeepsInv(js: Jobs, call: Call)
    requires Inv(js) && Possible(js, call)
    ensures Inv(Next(js, call))
  {
    forall id | id in Next(js, call)
      ensures Next(js, call)[id].id == id && JobInv(Next(js, call)[id])
    {
      if id in js {
        NextIsJobNext(js, call, id);
        ClaimsArePending(js, call, id);
        JobNextKeepsInv(js[id], call);
      } else {
        NewJobsAreFresh(js, call, id);
      }
    }
  }

  lemma ClaimsArePending(js: Jobs, call: Call, id: JobId)
    requires Possible(js, call) && id in js && js[id].id == id
    ensures PicksPending(js[id], call)
  {
    if call.ClaimCall? && call.ask.worker != "" {
      PicksWerePending(Reap(js, call.ask.Now()), call.picks, call.ask);
    }
  }

  /** A claim takes a job only when it is pending after the reap, and due. */
  ghost predicate PicksPending(job: Job, call: Call) {
    call.ClaimCall? && call.ask.worker != "" && job.id in call.picks ==>
      var reaped := Reaped(job, call.ask.Now());
      reaped.status == Pending && reaped.runAt <= call.ask.Now() && TypeAllowed(call.ask.types, reaped)
  }

  /** Every state of every run satisfies the invariant. */
  lemma {:induction false} RunKeepsInv(states: seq<Jobs>, calls: seq<Call>, n: nat)
    requires Run(states, calls) && n < |states|
    ensures Inv(states[n])
  {
    if n > 0 {
      RunKeepsInv(states, calls, n - 1);
      NextKeepsInv(states[n - 1], calls[n - 1]);
    }
  }

  // ---- fencing ---------------------------------------------------------------------

  /** This call claimed the job for the worker and kept it. */
  ghost predicate KeptClaim(js: Jobs, call: Call, id: JobId, worker: WorkerId) {
    && call.ClaimCall?
    && call.ask.worker == worker != ""
    && id in call.picks
    && id in js
    && !call.ask.Foreign(js[id])
  }

  /** This call took the job away from whoever held it: an expired lease was reaped, the holder
      completed or failed it, or it was cancelled by force. */
  ghost predicate EndsHold(js: Jobs, call: Call, id: JobId) {
    && id in js
    && match call
       case ClaimCall(ask, _) => ask.worker != "" && Expired(js[id], ask.Now())
       case CompleteCall(about, worker, _, _) => about == id && Holds(js[id], worker)
       case FailCall(about, worker, _, _) => about == id && Holds(js[id], worker)
       case CancelCall(about, force, _) => about == id && force && js[id].status == Running
       case _ => false
  }

  lemma ForeignAfterReap(job: Job, ask: Ask)
    ensures ask.Foreign(Reaped(job, ask.Now())) == ask.Foreign(job)
  {
    assert Reaped(job, ask.Now()).metadata == job.metadata;
  }

  ghost predicate Held(js: Jobs, id: JobId, worker: WorkerId) {
    id in js && Holds(js[id], worker)
  }

  lemma HoldAfterCall(js: Jobs, call: Call, id: JobId, worker: WorkerId)
    requires Inv(js) && Possible(js, call)
    ensures Held(Next(js, call), id, worker) <==>
            KeptClaim(js, call, id, worker) || (Held(js, id, worker) && !EndsHold(js, call, id))
  {
    hide Next, Possible;
    if id in js {
      NextIsJobNext(js, call, id);
      ClaimsArePending(js, call, id);
      if call.ClaimCall? {
        ForeignAfterReap(js[id], call.ask);
      }
    } else if id in Next(js, call) {
      NewJobsAreFresh(js, call, id);
    }
  }

  lemma HoldAfterStep(states: seq<Jobs>, calls: seq<Call>, n: nat, id: JobId, worker: WorkerId)
    requires Run(states, calls) && n < |calls|
    ensures Held(states[n + 1], id, worker) <==>
            KeptClaim(states[n], calls[n], id, worker) || (Held(states[n], id, worker)
              && !EndsHold(states[n], calls[n], id))
  {
    hide Next, Possible;
    RunKeepsInv(states, calls, n);
    HoldAfterCall(states[n], calls[n], id, worker);
  }

  /** The worker made the latest claim of the job, at call `k`, and nothing has ended it since. */
  ghost predicate LatestClaim(states: seq<Jobs>, calls: seq<Call>, n: nat, id: JobId, worker: WorkerId, k: nat)
    requires |states| == |calls| + 1 && n < |states|
  {
    && k < n
    && KeptClaim(states[k], calls[k], id, worker)
    && forall i | k < i < n :: !EndsHold(states[i], calls[i], id)
  }

  ghost predicate HasLatestClaim(states: seq<Jobs>, calls: seq<Call>, n: nat, id: JobId, worker: WorkerId)
    requires |states| == |calls| + 1 && n < |states|
  {
    exists k: nat :: LatestClaim(states, calls, n, id, worker, k)
  }

  lemma LatestClaimStep(states: seq<Jobs>, calls: seq<Call>, n: nat, id: JobId, worker: WorkerId)
    requires |states| == |calls| + 1 && 0 < n < |states|
    ensures HasLatestClaim(states, calls, n, id, worker) <==>
            KeptClaim(states[n - 1], calls[n - 1], id, worker)
            || (HasLatestClaim(states, calls, n - 1, id, worker) && !EndsHold(states[n - 1], calls[n - 1], id))
  {
    if KeptClaim(states[n - 1], calls[n - 1], id, worker) {
      assert LatestClaim(states, calls, n, id, worker, n - 1);
    } else if HasLatestClaim(states, calls, n - 1, id, worker) && !EndsHold(states[n - 1], calls[n - 1], id) {
      var k: nat :| LatestClaim(states, calls, n - 1, id, worker, k);
      assert LatestClaim(states, calls, n, id, worker, k);
    } else if k: nat :| LatestClaim(states, calls, n, id, worker, k) {
      assert LatestClaim(states, calls, n - 1, id, worker, k);
    }
  }

  /** Lease fencing over every run: a worker holds a job exactly when it made that job's latest
      claim and no reap, release, fail, completion or forced cancel came after it. */
  lemma {:induction false} Fencing(states: seq<Jobs>, calls: seq<Call>, n: nat, id: JobId, worker: WorkerId)
    requires Run(states, calls) && n < |states|
    ensures Held(states[n], id, worker) <==> HasLatestClaim(states, calls, n, id, worker)
  {
    if n > 0 {
      Fencing(states, calls, n - 1, id, worker);
      LatestClaimStep(states, calls, n, id, worker);
      HoldAfterStep(states, calls, n - 1, id, worker);
    }
  }

  /** What the reports ask of the reporter: without the hold nothing changes, and a report that is
      answered with a changed or running job came from the holder. */
  lemma ReportsNeedTheHold(js: Jobs, call: Call)
    requires call.HeartbeatCall? || call.CompleteCall? || call.FailCall?
    requires Next(js, call) != js
    ensures Held(js, call.id, call.worker)
  {
  }

  /** The same over a run: a report that changes anything comes from the worker with the latest claim. */
  lemma ReportsAreFenced(states: seq<Jobs>, calls: seq<Call>, n: nat)
    requires Run(states, calls) && n < |calls|
    requires calls[n].HeartbeatCall? || calls[n].CompleteCall? || calls[n].FailCall?
    requires states[n + 1] != states[n]
    ensures HasLatestClaim(states, calls, n, calls[n].id, calls[n].worker)
  {
    ReportsNeedTheHold(states[n], calls[n]);
    Fencing(states, calls, n, calls[n].id, calls[n].worker);
  }

  // ---- settled jobs ----------------------------------------------------------------

  predicate Settled(job: Job) {
    job.status == Completed || job.status == Failed || job.status == Cancelled
  }

  /** A completed job is never written again; a failed or cancelled one only by a retry. */
  lemma {:induction false} SettledStays(states: seq<Jobs>, calls: seq<Call>, m: nat, n: nat, id: JobId)
    requires Run(states, calls) && m <= n < |states|
    requires id in states[m] && Settled(states[m][id])
    requires states[m][id].status == Completed || forall i | m <= i < n :: !(calls[i].RetryCall? && calls[i].id == id)
    ensures id in states[n] && states[n][id] == states[m][id]
  {
    hide Next, Possible;
    if m < n {
      SettledStays(states, calls, m, n - 1, id);
      RunKeepsInv(states, calls, n - 1);
      NextIsJobNext(states[n - 1], calls[n - 1], id);
      ClaimsArePending(states[n - 1], calls[n - 1], id);
    }
  }

  // ---- what a call means for later calls -------------------------------------------

  lemma FlagIsKept(job: Job, call: Call)
    requires job.cancelRequested && !call.RetryCall?
    ensures JobNext(job, call).cancelRequested
  {
    if call.ClaimCall? {
      assert Reaped(job, call.ask.Now()).cancelRequested;
      hide Reaped;
    } else {
      hide Backoff, RetryDelay, Truncated, Iso, IsoPlus;
    }
  }

  /** A job that was asked to cancel never completes, unless it is retried: it may lose its lease and be
      claimed again, but no worker's report completes it. */
  lemma {:induction false} CancelRequestSticks(states: seq<Jobs>, calls: seq<Call>, m: nat, n: nat, id: JobId)
    requires Run(states, calls) && m <= n < |states|
    requires id in states[m] && states[m][id].cancelRequested
    requires forall i | m <= i < n :: !(calls[i].RetryCall? && calls[i].id == id)
    ensures id in states[n] && states[n][id].cancelRequested && states[n][id].status != Completed
  {
    hide JobNext, Next;
    RunKeepsInv(states, calls, n);
    if m < n {
      CancelRequestSticks(states, calls, m, n - 1, id);
      RunKeepsInv(states, calls, n - 1);
      NextIsJobNext(states[n - 1], calls[n - 1], id);
      if !calls[n - 1].RetryCall? {
        FlagIsKept(states[n - 1][id], calls[n - 1]);
      }
    }
  }

  /** A heartbeat that is accepted moves the moment of reaping to the extension after it, and moves
      nothing else: until then no reap touches the job, from then on every reap takes it away. */
  lemma HeartbeatMovesTheReap(job: Job, worker: WorkerId, extend: int, clock: int, now: int)
    requires JobInv(job) && Heartbeat(job, worker, extend, clock).Ok?
    ensures var beaten := Heartbeat(job, worker, extend, clock).value;
            && Holds(beaten, worker) && JobInv(beaten)
            && (Reaped(beaten, Iso(now)) == beaten <==> Iso(now) < IsoPlus(clock, Max(0, extend)))
            && (Iso(now) >= IsoPlus(clock, Max(0, extend)) ==> !Holds(Reaped(beaten, Iso(now)), worker))
            && beaten.(leaseExpiresAt := job.leaseExpiresAt) == job
  {
    var beaten := Heartbeat(job, worker, extend, clock).value;
    assert Reaped(beaten, Iso(now)) == beaten || Reaped(beaten, Iso(now)).status != Running;
  }

  /** A retried job starts over: due at once, behind those that are waiting, with its whole budget, and no trace
      of how it ended. */
  lemma RetryStartsOver(job: Job, clock: int, seqNo: nat)
    requires JobInv(job) && Retry(job, clock, seqNo).Ok?
    ensures var again := Retry(job, clock, seqNo).value;
            && Settled(job) && !Settled(again) && JobInv(again)
            && Fuel(again) == 2 * job.maxAttempts && again.runAt == Iso(clock) && again.seqNo == seqNo
            && again.error.None? && again.output.None? && again.completedAt.None? && !again.cancelRequested
  {
    assert Retry(job, clock, seqNo).value.maxAttempts == job.maxAttempts;
  }

  // ---- every job settles -----------------------------------------------------------

  /** How much life a job has left: two for every attempt it may still start, one for the attempt
      under way, nothing once it is settled. */
  function Fuel(job: Job): int {
    if Settled(job) then 0
    else 2 * (job.maxAttempts - job.attempts) + if job.status == Running then 1 else 0
  }

  /** The calls that move a job along: a kept claim, an accepted report, a reaped lease, a cancel
      that takes effect at once. */
  ghost predicate Moves(js: Jobs, call: Call, id: JobId) {
    && id in js
    && (EndsHold(js, call, id)
        || (call.ClaimCall? && KeptClaim(js, call, id, call.ask.worker))
        || (call.CancelCall? && call.id == id && js[id].status == Pending))
  }

  lemma FuelFalls(js: Jobs, call: Call, id: JobId)
    requires Inv(js) && Possible(js, call) && id in js
    requires !(call.RetryCall? && call.id == id)
    ensures id in Next(js, call)
    ensures Next(js, call)[id].maxAttempts == js[id].maxAttempts
    ensures Moves(js, call, id) ==> Fuel(Next(js, call)[id]) < Fuel(js[id])
    ensures !Moves(js, call, id) ==> Fuel(Next(js, call)[id]) == Fuel(js[id])
  {
    hide Next, Possible;
    NextIsJobNext(js, call, id);
    ClaimsArePending(js, call, id);
    if call.ClaimCall? {
      ForeignAfterReap(js[id], call.ask);
    }
  }

  ghost function MoveCount(states: seq<Jobs>, calls: seq<Call>, m: nat, n: nat, id: JobId): nat
    requires |states| == |calls| + 1 && m <= n < |states|
  {
    if m == n then 0
    else MoveCount(states, calls, m, n - 1, id) + if Moves(states[n - 1], calls[n - 1], id) then 1 else 0
  }

  /** Unless it is retried, a job is moved at most twice its attempt budget, and a job that has been
      moved that often is settled. */
  lemma {:induction false} EveryJobSettles(states: seq<Jobs>, calls: seq<Call>, m: nat, n: nat, id: JobId)
    requires Run(states, calls) && m <= n < |states| && id in states[m]
    requires forall i | m <= i < n :: !(calls[i].RetryCall? && calls[i].id == id)
    ensures id in states[n] && states[n][id].maxAttempts == states[m][id].maxAttempts
    ensures MoveCount(states, calls, m, n, id) + Fuel(states[n][id])
            <= Fuel(states[m][id]) <= 2 * states[m][id].maxAttempts
    ensures MoveCount(states, calls, m, n, id) >= 2 * states[m][id].maxAttempts ==> Settled(states[n][id])
  {
    hide Next, Possible, Moves;
    RunKeepsInv(states, calls, m);
    RunKeepsInv(states, calls, n);
    if m < n {
      EveryJobSettles(states, calls, m, n - 1, id);
      RunKeepsInv(states, calls, n - 1);
      FuelFalls(states[n - 1], calls[n - 1], id);
    }
  }
}
