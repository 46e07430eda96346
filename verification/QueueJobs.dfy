/** The durable leased queue: one job document, what each lifecycle call does to it, and
    what each call does to the queue directory as a whole.

    Time is the wall clock in microseconds. Every stored deadline is an ISO-8601 string with
    whole seconds, and those strings are compared, so a deadline here is a number of seconds. */
module QueueJobs {
  import opened Outcomes

  const MICROS := 1_000_000
  const BACKOFF_BASE_SECONDS := 5
  const BACKOFF_CAP_SECONDS := 300
  const MAX_CLAIM_LIMIT := 50
  const MAX_ERROR_LENGTH := 2000
  const LEASE_EXPIRED := "lease expired"

  type JobId = string
  type WorkerId = string
  type Stamp = int

  /** The text of the clock: fractions of a second are cut off. */
  function Iso(clock: int): Stamp {
    clock / MICROS
  }

  function IsoPlus(clock: int, micros: int): Stamp {
    Iso(clock + micros)
  }

  function Max(a: int, b: int): int {
    if a >= b then a else b
  }

  function Min(a: int, b: int): int {
    if a <= b then a else b
  }

  datatype Status = Pending | Running | Completed | Failed | Cancelled

  datatype Job = Job(
    id: JobId,
    kind: string,
    payload: string,
    status: Status,
    attempts: nat,
    maxAttempts: nat,
    priority: int,
    runAt: Stamp,
    seqNo: nat,
    metadata: map<string, string>,
    concurrencyKey: Option<string>,
    concurrencyLimit: Option<int>,
    retryDelay: Option<int>,
    workerId: Option<WorkerId>,
    leaseExpiresAt: Option<Stamp>,
    cancelRequested: bool,
    deadLetter: bool,
    output: Option<string>,
    error: Option<string>,
    lastError: Option<string>,
    createdAt: Stamp,
    startedAt: Option<Stamp>,
    completedAt: Option<Stamp>)

  type Jobs = map<JobId, Job>

  function MetadataOf(job: Job, name: string): Option<string> {
    if name in job.metadata then Some(job.metadata[name]) else None
  }

  function VersionOf(job: Job): Option<string> {
    MetadataOf(job, "versionId")
  }

  function AgentOf(job: Job): Option<string> {
    MetadataOf(job, "agent")
  }

  /** The key a job is counted under; the empty key is no key. */
  function KeyOf(job: Job): Option<string> {
    if Truthy(job.concurrencyKey) then job.concurrencyKey else None
  }

  /** The cap a job is claimed under; a stored 0 is no cap. */
  function LimitOf(job: Job): Option<int> {
    if job.concurrencyLimit == Some(0) then None else job.concurrencyLimit
  }

  // ---- enqueue ---------------------------------------------------------------------

  datatype Request = Request(
    kind: string,
    payload: string,
    jobId: Option<string>,
    maxAttempts: int,
    delay: int,
    priority: int,
    metadata: map<string, string>,
    concurrencyKey: Option<string>,
    concurrencyLimit: Option<int>,
    retryDelay: Option<int>)

  function NewJob(req: Request, id: JobId, clock: int, seqNo: nat): Job {
    Job(id, req.kind, req.payload, Pending, 0, Max(1, req.maxAttempts), req.priority,
        IsoPlus(clock, req.delay), seqNo, req.metadata, req.concurrencyKey,
        if req.concurrencyLimit == Some(0) then None else req.concurrencyLimit,
        req.retryDelay, None, None, false, false, None, None, None, Iso(clock), None, None)
  }

  /** The id a request is stored under: its own, or the one generated for it. */
  function IdFor(req: Request, newId: JobId): JobId {
    if Truthy(req.jobId) then req.jobId.value else newId
  }

  /** The queue after an enqueue, given whether admission would let a new job in. */
  function Enqueue(js: Jobs, req: Request, newId: JobId, clock: int, seqNo: nat, admit: Result<()>)
    : (Jobs, Result<Job>)
  {
    var id := IdFor(req, newId);
    if req.kind == "" then (js, Err(Validation))
    else if Truthy(req.jobId) && id in js then (js, Ok(js[id]))
    else if admit.Err? then (js, Err(admit.error))
    else
      var job := NewJob(req, id, clock, seqNo);
      (js[id := job], Ok(job))
  }

  // ---- one job at a time -----------------------------------------------------------

  predicate Holds(job: Job, worker: WorkerId) {
    job.status == Running && job.workerId == Some(worker)
  }

  function Heartbeat(job: Job, worker: WorkerId, extend: int, clock: int): Result<Job> {
    if !Holds(job, worker) then Err(QueueConflict)
    else Ok(job.(leaseExpiresAt := Some(IsoPlus(clock, Max(0, extend)))))
  }

  function Complete(job: Job, worker: WorkerId, output: Option<string>, clock: int): Result<Job> {
    if job.status == Cancelled then Ok(job)
    else if !Holds(job, worker) then Err(QueueConflict)
    else Ok(job.(status := if job.cancelRequested then Cancelled else Completed,
                 output := output, completedAt := Some(Iso(clock)), leaseExpiresAt := None))
  }

  function Pow2(n: nat): nat {
    if n == 0 then 1 else 2 * Pow2(n - 1)
  }

  /** Seconds of default backoff after the given attempt (the first is 1). */
  function Backoff(attempt: nat): int
    requires attempt >= 1
  {
    Min(BACKOFF_CAP_SECONDS, BACKOFF_BASE_SECONDS * Pow2(attempt - 1))
  }

  /** Microseconds until the next try. The exponent is one less than the attempts, so a job
      nobody claimed would wait half the base. */
  function RetryDelay(job: Job): int {
    if job.retryDelay.Some? then job.retryDelay.value
    else if job.attempts >= 1 then Backoff(job.attempts) * MICROS
    else BACKOFF_BASE_SECONDS * MICROS / 2
  }

  function Truncated(text: string): string {
    if |text| <= MAX_ERROR_LENGTH then text else text[..MAX_ERROR_LENGTH]
  }

  function Fail(job: Job, worker: WorkerId, error: string, clock: int): Result<Job> {
    if job.status == Cancelled then Ok(job)
    else if !Holds(job, worker) then Err(QueueConflict)
    else
      var freed := job.(lastError := Some(Truncated(error)), workerId := None, leaseExpiresAt := None);
      if job.cancelRequested then
        Ok(freed.(status := Cancelled, completedAt := Some(Iso(clock))))
      else if job.attempts >= job.maxAttempts then
        Ok(freed.(status := Failed, deadLetter := true, error := freed.lastError, completedAt := Some(Iso(clock))))
      else
        Ok(freed.(status := Pending, runAt := IsoPlus(clock, RetryDelay(job))))
  }

  function Cancel(job: Job, force: bool, clock: int): Job {
    if job.status == Pending then
      job.(status := Cancelled, cancelRequested := true, completedAt := Some(Iso(clock)))
    else if job.status == Running && force then
      job.(cancelRequested := true, status := Cancelled, workerId := None, leaseExpiresAt := None,
           completedAt := Some(Iso(clock)))
    else if job.status == Running then
      job.(cancelRequested := true)
    else
      job
  }

  function Retry(job: Job, clock: int, seqNo: nat): Result<Job> {
    if job.status != Failed && job.status != Cancelled then Err(QueueConflict)
    else Ok(job.(status := Pending, attempts := 0, runAt := Iso(clock), workerId := None,
                 leaseExpiresAt := None, cancelRequested := false, deadLetter := false,
                 error := None, output := None, completedAt := None, seqNo := seqNo))
  }

  predicate Expired(job: Job, now: Stamp) {
    job.status == Running && job.leaseExpiresAt.Some? && job.leaseExpiresAt.value <= now
  }

  /** What reaping makes of one job. */
  function Reaped(job: Job, now: Stamp): Job {
    if !Expired(job, now) then job
    else
      var freed := job.(workerId := None, leaseExpiresAt := None);
      if job.attempts >= job.maxAttempts then
        freed.(status := Failed, deadLetter := true, completedAt := Some(now),
               error := Some(if Truthy(job.error) then job.error.value else LEASE_EXPIRED))
      else
        freed.(status := Pending, lastError := Some(LEASE_EXPIRED), runAt := now)
  }

  function Reap(js: Jobs, now: Stamp): Jobs {
    map id | id in js :: Reaped(js[id], now)
  }

  /** What `queue_claim_one` writes into the job it picks. */
  function Taken(job: Job, worker: WorkerId, now: Stamp, lease: Stamp): Job {
    job.(status := Running, workerId := Some(worker), leaseExpiresAt := Some(lease),
         attempts := job.attempts + 1,
         startedAt := if job.startedAt.Some? then job.startedAt else Some(now))
  }

  /** What `claim` writes into a job it took but may not run. */
  function HandedBack(job: Job): Job {
    job.(status := Pending, workerId := None, leaseExpiresAt := None,
         attempts := Max(0, (if job.attempts == 0 then 1 else job.attempts) - 1))
  }

  // ---- choosing the next job -------------------------------------------------------

  function RunningIds(js: Jobs, key: string): set<JobId> {
    set id | id in js && js[id].status == Running && KeyOf(js[id]) == Some(key)
  }

  /** How many jobs under this job's key are running; a keyless job counts none. */
  function Busy(js: Jobs, job: Job): nat {
    if KeyOf(job).Some? then |RunningIds(js, KeyOf(job).value)| else 0
  }

  predicate TypeAllowed(types: Option<seq<string>>, job: Job) {
    types.None? || types.value == [] || job.kind in types.value
  }

  predicate UnderCap(js: Jobs, job: Job) {
    KeyOf(job).Some? && LimitOf(job).Some? ==> Busy(js, job) < LimitOf(job).value
  }

  predicate Claimable(js: Jobs, job: Job, now: Stamp, types: Option<seq<string>>) {
    job.status == Pending && TypeAllowed(types, job) && job.runAt <= now && UnderCap(js, job)
  }

  /** The order of `queue_list`: priority first, then due time, then arrival. */
  predicate ListLe(a: Job, b: Job) {
    a.priority > b.priority
    || (a.priority == b.priority && (a.runAt < b.runAt || (a.runAt == b.runAt && a.seqNo <= b.seqNo)))
  }

  /** Fairness first: the least busy key, then the order of the list. */
  predicate RankLe(js: Jobs, a: Job, b: Job) {
    Busy(js, a) < Busy(js, b) || (Busy(js, a) == Busy(js, b) && ListLe(a, b))
  }

  /** The job that deserves the next slot: claimable, and no claimable job ranks before it. */
  ghost predicate Best(js: Jobs, id: JobId, now: Stamp, types: Option<seq<string>>) {
    && id in js
    && Claimable(js, js[id], now, types)
    && forall other | other in js && Claimable(js, js[other], now, types) :: RankLe(js, js[id], js[other])
  }

  ghost predicate NothingClaimable(js: Jobs, now: Stamp, types: Option<seq<string>>) {
    forall id | id in js :: !Claimable(js, js[id], now, types)
  }

  // ---- the claim loop --------------------------------------------------------------

  /** Everything one `claim` call was asked for, its clock included. */
  datatype Ask = Ask(worker: WorkerId, types: Option<seq<string>>, limit: int, leaseTime: int,
                     version: Option<string>, agent: Option<string>, clock: int) {
    function Now(): Stamp { Iso(clock) }
    function Lease(): Stamp { IsoPlus(clock, Max(0, leaseTime)) }
    function Wanted(): int { Max(1, Min(limit, MAX_CLAIM_LIMIT)) }

    /** The job is pinned to another version, or belongs to another agent. */
    predicate Foreign(job: Job) {
      || (version.Some? && VersionOf(job).Some? && VersionOf(job) != version)
      || (agent.Some? && AgentOf(job).Some? && AgentOf(job) != agent)
    }
  }

  /** The queue while the loop holds the jobs it has picked so far. */
  function Holding(js: Jobs, picks: seq<JobId>, ask: Ask): Jobs {
    map id | id in js ::
      if id in picks then Taken(js[id], ask.worker, ask.Now(), ask.Lease()) else js[id]
  }

  /** The picks this caller may run, in the order it took them. */
  function Mine(js: Jobs, picks: seq<JobId>, ask: Ask): (mine: seq<JobId>)
    requires forall id | id in picks :: id in js
    ensures forall id :: id in mine <==> id in picks && !ask.Foreign(js[id])
  {
    if picks == [] then []
    else
      var id := picks[|picks| - 1];
      var before := Mine(js, picks[..|picks| - 1], ask);
      if ask.Foreign(js[id]) then before else before + [id]
  }

  /** `picks` is a way the loop can have run so far: each pick was the best job at the time,
      and the loop had a reason to go on. */
  ghost predicate Picked(js: Jobs, picks: seq<JobId>, ask: Ask) {
    if picks == [] then true
    else
      var before := picks[..|picks| - 1];
      var id := picks[|picks| - 1];
      && Picked(js, before, ask)
      && (forall p | p in before :: p in js)
      && |before| < MAX_CLAIM_LIMIT
      && |Mine(js, before, ask)| < ask.Wanted()
      && Best(Holding(js, before, ask), id, ask.Now(), ask.types)
  }

  /** ... and then it stopped: enough jobs, too many tries, or nothing left to claim. */
  ghost predicate Finished(js: Jobs, picks: seq<JobId>, ask: Ask) {
    && Picked(js, picks, ask)
    && (forall p | p in picks :: p in js)
    && (|Mine(js, picks, ask)| >= ask.Wanted()
        || |picks| == MAX_CLAIM_LIMIT
        || NothingClaimable(Holding(js, picks, ask), ask.Now(), ask.types))
  }

  /** The queue once the loop has handed the foreign picks back. */
  function AfterClaim(js: Jobs, picks: seq<JobId>, ask: Ask): Jobs {
    map id | id in js ::
      if id !in picks then js[id]
      else
        var taken := Taken(js[id], ask.worker, ask.Now(), ask.Lease());
        if ask.Foreign(js[id]) then HandedBack(taken) else taken
  }

  // ---- the calls as steps of the whole queue ---------------------------------------

  /** Store the outcome of a call on one job, or leave the queue alone when it was refused. */
  function Stored(js: Jobs, id: JobId, r: Result<Job>): Jobs {
    if r.Ok? then js[id := r.value] else js
  }
}
