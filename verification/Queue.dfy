/** The lifecycle calls on the queue: get the document, check it, rewrite it, save it. */
module Queue {
  import opened Outcomes
  import opened QueueJobs
  import opened QueueStore
  import Quotas

  /** Enqueue one job; an id that is already known returns the existing job untouched, before
      admission is even asked. */
  method EnqueueJob(store: Directory, req: Request, newId: JobId, clock: int, seqNo: nat) returns (r: Result<Job>)
    requires store.Valid()
    modifies store`jobs
    ensures store.Valid()
    ensures (store.jobs, r) == Enqueue(old(store.jobs), req, newId, clock, seqNo,
                                       Quotas.JobAdmission(store.facts, PendingCount(old(store.jobs))))
  {
    if req.kind == "" {
      return Err(Validation);
    }
    if Truthy(req.jobId) {
      var existing := store.Get(req.jobId.value);
      if existing.Some? {
        return Ok(existing.value);
      }
    }
    var pending := store.CountPending();
    var usage := Quotas.UsageFor(store.facts, pending, Quotas.KeysFor(Quotas.JobWork));
    var admitted := Quotas.RequireAdmission(store.facts, Quotas.JobWork, usage);
    if admitted.Err? {
      return Err(admitted.error);
    }
    var job := NewJob(req, IdFor(req, newId), clock, seqNo);
    store.Save(job);
    r := Ok(job);
  }

  /** Claim up to `limit` due jobs: reap, take one job at a time, hold the foreign ones until
      the loop ends, hand those back. `picks` names every job the loop took, in order. */
  method Claim(store: Directory, ask: Ask) returns (r: Result<seq<Job>>, ghost picks: seq<JobId>)
    requires store.Valid()
    modifies store`jobs
    ensures store.Valid()
    ensures ask.worker == "" ==> r == Err(Validation) && store.jobs == old(store.jobs)
    ensures ask.worker != "" ==> Finished(Reap(old(store.jobs), ask.Now()), picks, ask)
    ensures ask.worker != "" ==> store.jobs == AfterClaim(Reap(old(store.jobs), ask.Now()), picks, ask)
    ensures ask.worker != "" ==> r == Ok(JobsOf(store.jobs, Mine(Reap(old(store.jobs), ask.Now()), picks, ask)))
  {
    if ask.worker == "" {
      return Err(Validation), [];
    }
    store.ReapExpired(ask.Now());
    ghost var js := store.jobs;
    var claimed, released;
    claimed, released, picks := TakeJobs(store, ask);
    HandBack(store, released);
    AllReturned(js, picks, ask, claimed, released);
    r := Ok(claimed);
  }

  /** The first loop of `claim`: tries, not items, are what the bound of 50 is on. */
  method TakeJobs(store: Directory, ask: Ask) returns (claimed: seq<Job>, released: seq<Job>, ghost picks: seq<JobId>)
    requires store.Valid()
    modifies store`jobs
    ensures store.Valid()
    ensures Finished(old(store.jobs), picks, ask)
    ensures store.jobs == Holding(old(store.jobs), picks, ask)
    ensures Split(old(store.jobs), picks, ask, claimed, released)
  {
    ghost var js := store.jobs;
    claimed, released, picks := [], [], [];
    assert Holding(js, [], ask) == js;
    for tries := 0 to MAX_CLAIM_LIMIT
      invariant |picks| == tries
      invariant store.Valid() && (forall p | p in picks :: p in js) && store.jobs == Holding(js, picks, ask)
      invariant Looping(js, picks, ask, claimed, released)
    {
      if |claimed| >= ask.Wanted() {
        return;
      }
      var found := store.ClaimOne(ask.worker, ask.Now(), ask.Lease(), ask.types);
      if found.None? {
        return;
      }
      var job := found.value;
      PickNext(js, picks, job.id, ask);
      LoopNext(js, picks, job, ask, claimed, released);
      picks := picks + [job.id];
      var otherVersion := ask.version.Some? && VersionOf(job).Some? && VersionOf(job) != ask.version;
      var otherAgent := ask.agent.Some? && AgentOf(job).Some? && AgentOf(job) != ask.agent;
      if otherVersion || otherAgent {
        released := released + [job];
      } else {
        claimed := claimed + [job];
      }
    }
  }

  /** The second loop of `claim`: the attempt each held job was charged is rolled back. */
  method HandBack(store: Directory, released: seq<Job>)
    requires store.Valid()
    requires forall job | job in released :: job.id in store.jobs && job == store.jobs[job.id]
    modifies store`jobs
    ensures store.Valid()
    ensures store.jobs == Returning(old(store.jobs), IdsOf(released))
  {
    ghost var js := store.jobs;
    for i := 0 to |released|
      invariant store.Valid()
      invariant store.jobs == Returning(js, IdsOf(released[..i]))
    {
      var job := released[i];
      job := job.(status := Pending, workerId := None, leaseExpiresAt := None,
                  attempts := Max(0, (if job.attempts == 0 then 1 else job.attempts) - 1));
      ReturnNext(js, released, i);
      store.Save(job);
    }
    assert released[..|released|] == released;
  }

  method ExtendLease(store: Directory, id: JobId, worker: WorkerId, extend: int, clock: int) returns (r: Result<Job>)
    requires store.Valid()
    modifies store`jobs
    ensures store.Valid()
    ensures id !in old(store.jobs) ==> r == Err(JobNotFound) && store.jobs == old(store.jobs)
    ensures id in old(store.jobs) ==> r == Heartbeat(old(store.jobs)[id], worker, extend, clock)
    ensures id in old(store.jobs) ==> store.jobs == Stored(old(store.jobs), id, r)
  {
    var found := store.Get(id);
    if found.None? {
      return Err(JobNotFound);
    }
    var job := found.value;
    if !Holds(job, worker) {
      return Err(QueueConflict);
    }
    job := job.(leaseExpiresAt := Some(IsoPlus(clock, Max(0, extend))));
    store.Save(job);
    r := Ok(job);
  }

  method CompleteJob(store: Directory, id: JobId, worker: WorkerId, output: Option<string>, clock: int)
    returns (r: Result<Job>)
    requires store.Valid()
    modifies store`jobs
    ensures store.Valid()
    ensures id !in old(store.jobs) ==> r == Err(JobNotFound) && store.jobs == old(store.jobs)
    ensures id in old(store.jobs) ==> r == Complete(old(store.jobs)[id], worker, output, clock)
    ensures id in old(store.jobs) ==> store.jobs == Stored(old(store.jobs), id, r)
  {
    var found := store.Get(id);
    if found.None? {
      return Err(JobNotFound);
    }
    var job := found.value;
    if job.status == Cancelled {
      assert store.jobs == Stored(store.jobs, id, Ok(job));
      return Ok(job);
    }
    if !Holds(job, worker) {
      return Err(QueueConflict);
    }
    job := job.(status := if job.cancelRequested then Cancelled else Completed);
    job := job.(output := output, completedAt := Some(Iso(clock)), leaseExpiresAt := None);
    store.Save(job);
    r := Ok(job);
  }

  method FailJob(store: Directory, id: JobId, worker: WorkerId, error: string, clock: int) returns (r: Result<Job>)
    requires store.Valid()
    modifies store`jobs
    ensures store.Valid()
    ensures id !in old(store.jobs) ==> r == Err(JobNotFound) && store.jobs == old(store.jobs)
    ensures id in old(store.jobs) ==> r == Fail(old(store.jobs)[id], worker, error, clock)
    ensures id in old(store.jobs) ==> store.jobs == Stored(old(store.jobs), id, r)
  {
    var found := store.Get(id);
    if found.None? {
      return Err(JobNotFound);
    }
    var job := found.value;
    if job.status == Cancelled {
      assert store.jobs == Stored(store.jobs, id, Ok(job));
      return Ok(job);
    }
    if !Holds(job, worker) {
      return Err(QueueConflict);
    }
    job := job.(lastError := Some(Truncated(error)), workerId := None, leaseExpiresAt := None);
    if job.cancelRequested {
      job := job.(status := Cancelled, completedAt := Some(Iso(clock)));
    } else if job.attempts >= job.maxAttempts {
      job := job.(status := Failed, deadLetter := true, error := job.lastError, completedAt := Some(Iso(clock)));
    } else {
      var delay := RetryDelay(job);
      job := job.(status := Pending, runAt := IsoPlus(clock, delay));
    }
    store.Save(job);
    r := Ok(job);
  }

  /** Unknown ids resolve quietly, so callers can cancel from stale state. */
  method CancelJob(store: Directory, id: JobId, force: bool, clock: int) returns (found: bool)
    requires store.Valid()
    modifies store`jobs
    ensures store.Valid()
    ensures found <==> id in old(store.jobs)
    ensures store.jobs == if found then old(store.jobs)[id := Cancel(old(store.jobs)[id], force, clock)]
                          else old(store.jobs)
  {
    var existing := store.Get(id);
    if existing.None? {
      return false;
    }
    var job := existing.value;
    if job.status == Pending {
      job := job.(status := Cancelled, cancelRequested := true, completedAt := Some(Iso(clock)));
    } else if job.status == Running {
      job := job.(cancelRequested := true);
      if force {
        job := job.(status := Cancelled, workerId := None, leaseExpiresAt := None, completedAt := Some(Iso(clock)));
      }
    }
    store.Save(job);
    found := true;
  }

  method RetryJob(store: Directory, id: JobId, clock: int, seqNo: nat) returns (r: Result<Job>)
    requires store.Valid()
    modifies store`jobs
    ensures store.Valid()
    ensures id !in old(store.jobs) ==> r == Err(JobNotFound) && store.jobs == old(store.jobs)
    ensures id in old(store.jobs) ==> r == Retry(old(store.jobs)[id], clock, seqNo)
    ensures id in old(store.jobs) ==> store.jobs == Stored(old(store.jobs), id, r)
  {
    var found := store.Get(id);
    if found.None? {
      return Err(JobNotFound);
    }
    var job := found.value;
    if job.status != Failed && job.status != Cancelled {
      return Err(QueueConflict);
    }
    job := job.(status := Pending, attempts := 0, runAt := Iso(clock), workerId := None,
                leaseExpiresAt := None, cancelRequested := false, deadLetter := false,
                error := None, output := None, completedAt := None, seqNo := seqNo);
    store.Save(job);
    r := Ok(job);
  }

  // ---- the claim loop, step by step ----------------------------------------------------

  function JobsOf(js: Jobs, ids: seq<JobId>): (out: seq<Job>)
    requires forall id | id in ids :: id in js
    ensures |out| == |ids| && forall i | 0 <= i < |ids| :: out[i] == js[ids[i]]
  {
    seq(|ids|, i requires 0 <= i < |ids| => js[ids[i]])
  }

  /** What the two lists of the loop hold: the taken jobs, split by whether the caller may run them. */
  ghost predicate Split(js: Jobs, picks: seq<JobId>, ask: Ask, claimed: seq<Job>, released: seq<Job>)
    requires forall p | p in picks :: p in js
  {
    && claimed == JobsOf(Holding(js, picks, ask), Mine(js, picks, ask))
    && (forall p | p in picks && ask.Foreign(js[p]) :: Holding(js, picks, ask)[p] in released)
    && (forall job | job in released :: job.id in picks && ask.Foreign(js[job.id])
          && job == Holding(js, picks, ask)[job.id])
  }

  lemma HoldingGrows(js: Jobs, picks: seq<JobId>, id: JobId, ask: Ask)
    requires id in js && id !in picks
    ensures Holding(js, picks + [id], ask) ==
            Holding(js, picks, ask)[id := Taken(js[id], ask.worker, ask.Now(), ask.Lease())]
  {
  }

  /** A job the loop already holds is running, so it cannot be picked again. */
  lemma PickNext(js: Jobs, picks: seq<JobId>, id: JobId, ask: Ask)
    requires Picked(js, picks, ask) && forall p | p in picks :: p in js
    requires |picks| < MAX_CLAIM_LIMIT && |Mine(js, picks, ask)| < ask.Wanted()
    requires Best(Holding(js, picks, ask), id, ask.Now(), ask.types)
    ensures id in js && id !in picks && Holding(js, picks, ask)[id] == js[id]
    ensures Picked(js, picks + [id], ask)
    ensures Holding(js, picks + [id], ask) ==
            Holding(js, picks, ask)[id := Taken(js[id], ask.worker, ask.Now(), ask.Lease())]
    ensures Mine(js, picks + [id], ask) == Mine(js, picks, ask) + if ask.Foreign(js[id]) then [] else [id]
  {
    assert id !in picks by {
      assert Holding(js, picks, ask)[id].status == Pending;
    }
    assert (picks + [id])[..|picks|] == picks;
    HoldingGrows(js, picks, id, ask);
  }

  ghost predicate Looping(js: Jobs, picks: seq<JobId>, ask: Ask, claimed: seq<Job>, released: seq<Job>)
    requires forall p | p in picks :: p in js
  {
    Picked(js, picks, ask) && Split(js, picks, ask, claimed, released)
  }

  /** Adding the taken job to the right one of the two lists keeps them split. */
  lemma LoopNext(js: Jobs, picks: seq<JobId>, job: Job, ask: Ask, claimed: seq<Job>, released: seq<Job>)
    requires Filed(js) && (forall p | p in picks :: p in js) && job.id in js && job.id !in picks
    requires job == Taken(js[job.id], ask.worker, ask.Now(), ask.Lease())
    requires Picked(js, picks + [job.id], ask)
    requires Looping(js, picks, ask, claimed, released)
    ensures ask.Foreign(job) == ask.Foreign(js[job.id])
    ensures ask.Foreign(js[job.id]) ==> Looping(js, picks + [job.id], ask, claimed, released + [job])
    ensures !ask.Foreign(js[job.id]) ==> Looping(js, picks + [job.id], ask, claimed + [job], released)
  {
    var id := job.id;
    HoldingGrows(js, picks, id, ask);
    ForeignIsKept(js[id], ask);
    ClaimedNext(js, picks, id, ask);
    var held, more := Holding(js, picks, ask), Holding(js, picks + [id], ask);
    assert more[id] == job;
    forall p | p in picks ensures more[p] == held[p] {
    }
  }

  lemma ForeignIsKept(job: Job, ask: Ask)
    ensures ask.Foreign(Taken(job, ask.worker, ask.Now(), ask.Lease())) == ask.Foreign(job)
  {
    assert Taken(job, ask.worker, ask.Now(), ask.Lease()).metadata == job.metadata;
  }

  lemma ClaimedNext(js: Jobs, picks: seq<JobId>, id: JobId, ask: Ask)
    requires (forall p | p in picks :: p in js) && id in js && id !in picks
    ensures var held, more := Holding(js, picks, ask), Holding(js, picks + [id], ask);
            JobsOf(more, Mine(js, picks + [id], ask)) ==
            JobsOf(held, Mine(js, picks, ask)) + if ask.Foreign(js[id]) then [] else [more[id]]
  {
    var held, more := Holding(js, picks, ask), Holding(js, picks + [id], ask);
    HoldingGrows(js, picks, id, ask);
    assert (picks + [id])[..|picks|] == picks;
    assert forall p | p in picks :: more[p] == held[p];
  }

  /** The queue once some of the held jobs have been saved back. */
  function Returning(js: Jobs, returned: set<JobId>): Jobs {
    map id | id in js :: if id in returned then HandedBack(js[id]) else js[id]
  }

  lemma ReturnNext(js: Jobs, released: seq<Job>, i: nat)
    requires i < |released| && forall job | job in released :: job.id in js && job == js[job.id]
    ensures Returning(js, IdsOf(released[..i + 1])) ==
            Returning(js, IdsOf(released[..i]))[released[i].id := HandedBack(released[i])]
  {
    assert released[i] in released;
    assert IdsOf(released[..i + 1]) == IdsOf(released[..i]) + {released[i].id} by {
      assert released[..i + 1] == released[..i] + [released[i]];
    }
  }

  lemma AllReturned(js: Jobs, picks: seq<JobId>, ask: Ask, claimed: seq<Job>, released: seq<Job>)
    requires Filed(js) && forall p | p in picks :: p in js
    requires Split(js, picks, ask, claimed, released)
    ensures Returning(Holding(js, picks, ask), IdsOf(released)) == AfterClaim(js, picks, ask)
    ensures claimed == JobsOf(AfterClaim(js, picks, ask), Mine(js, picks, ask))
  {
    var held := Holding(js, picks, ask);
    forall id | id in js ensures id in IdsOf(released) <==> id in picks && ask.Foreign(js[id]) {
      if id in picks && ask.Foreign(js[id]) {
        assert held[id] in released && held[id].id == id;
      }
    }
    hide Split, Taken, HandedBack;
    assert forall id | id in Mine(js, picks, ask) :: AfterClaim(js, picks, ask)[id] == held[id];
  }
}
