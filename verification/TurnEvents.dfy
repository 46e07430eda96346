/** Handing an event to a worker: a queued run first, then the job that executes it. */
module TurnEvents {
  import opened Outcomes
  import opened QueueJobs
  import opened QueueStore
  import Ledger
  import Queue
  import QueueRuns
  import Quotas

  /** What the caller knows: the version its environment points at, and the agent. */
  datatype Source = Source(version: Option<string>, agent: Option<string>)

  /** The ids generated for an event, the arrival number of its job, and how often it may be tried. */
  datatype Ticket = Ticket(runId: string, jobId: JobId, seqNo: nat, maxAttempts: int)

  const TURN_JOB := "chat-turn"

  function Tags(version: Option<string>, agent: Option<string>): map<string, string> {
    (if Truthy(version) then map["versionId" := version.value] else map[]) +
    (if Truthy(agent) then map["agent" := agent.value] else map[])
  }

  /** A turn adopts the run it names; the empty text names none. */
  function TurnRequest(source: Source, runId: string, maxAttempts: int): Request {
    Request(TURN_JOB, runId, None, maxAttempts, 0, 0, Tags(source.version, source.agent), source.version, None, None)
  }

  type Runs = map<string, Ledger.PinnedRun>

  function QueuedRun(source: Source, runId: string): Ledger.PinnedRun {
    Ledger.PinnedRun(runId, if source.agent.Some? then source.agent.value else "", source.version, Ledger.Queued)
  }

  datatype Desk = Desk(runs: Runs, jobs: Jobs)

  /** Enqueue a turn, as far as the queue admits it. */
  function CreateTurn(desk: Desk, facts: Quotas.Facts, source: Source, ticket: Ticket, clock: int)
    : (Desk, Result<JobId>)
  {
    var admit := Quotas.JobAdmission(facts, PendingCount(desk.jobs));
    var req := TurnRequest(source, ticket.runId, ticket.maxAttempts);
    var (jobs, r) := Enqueue(desk.jobs, req, ticket.jobId, clock, ticket.seqNo, admit);
    (desk.(jobs := jobs), if r.Err? then Err(r.error) else Ok(r.value.id))
  }

  /** Admit the run, write it down, and only then create its turn, which is admitted on its own. */
  function EnqueueEvent(desk: Desk, facts: Quotas.Facts, source: Source, ticket: Ticket, clock: int)
    : (Desk, Result<JobId>)
  {
    var admit := Quotas.RunAdmission(facts, PendingCount(desk.jobs));
    if admit.Err? then (desk, Err(admit.error))
    else
      var written := desk.(runs := desk.runs[ticket.runId := QueuedRun(source, ticket.runId)]);
      CreateTurn(written, facts, source, ticket, clock)
  }

  class EventStore {
    var runs: Runs
    const queue: Directory

    constructor (queue: Directory)
      ensures this.queue == queue && runs == map[]
    {
      this.queue := queue;
      runs := map[];
    }

    ghost function Read(): Desk
      reads this, queue
    {
      Desk(runs, queue.jobs)
    }

    method Create(source: Source, ticket: Ticket, clock: int) returns (r: Result<JobId>)
      requires queue.Valid()
      modifies queue`jobs
      ensures queue.Valid()
      ensures (Read(), r) == CreateTurn(old(Read()), queue.facts, source, ticket, clock)
    {
      var req := TurnRequest(source, ticket.runId, ticket.maxAttempts);
      var job := Queue.EnqueueJob(queue, req, ticket.jobId, clock, ticket.seqNo);
      r := if job.Err? then Err(job.error) else Ok(job.value.id);
    }

    method Submit(source: Source, ticket: Ticket, clock: int) returns (r: Result<JobId>)
      requires queue.Valid()
      modifies this, queue`jobs
      ensures queue.Valid()
      ensures (Read(), r) == EnqueueEvent(old(Read()), queue.facts, source, ticket, clock)
    {
      var pending := queue.CountPending();
      var usage := Quotas.UsageFor(queue.facts, pending, Quotas.KeysFor(Quotas.RunWork));
      var admitted := Quotas.RequireAdmission(queue.facts, Quotas.RunWork, usage);
      if admitted.Err? {
        return Err(admitted.error);
      }
      runs := runs[ticket.runId := QueuedRun(source, ticket.runId)];
      r := Create(source, ticket, clock);
    }
  }

  // ---- one event -------------------------------------------------------------------

  predicate AtDepthCeiling(facts: Quotas.Facts, js: Jobs) {
    && facts.quota.Ok? && Quotas.QueueDepth in facts.quota.value
    && PendingCount(js) as real >= facts.quota.value[Quotas.QueueDepth]
  }

  /** The run is written down exactly when it is admitted. A run without a turn, which nothing will execute,
      is left exactly when the run is admitted while the queue is at its depth ceiling; the caller is then
      told the quota is exceeded. */
  lemma RunIsStrandedExactly(desk: Desk, facts: Quotas.Facts, source: Source, ticket: Ticket, clock: int)
    requires ticket.runId !in desk.runs && ticket.jobId !in desk.jobs
    ensures var (after, r) := EnqueueEvent(desk, facts, source, ticket, clock);
            && (ticket.runId in after.runs <==> Quotas.RunAdmission(facts, PendingCount(desk.jobs)).Ok?)
            && (r.Ok? <==> ticket.jobId in after.jobs)
            && (ticket.runId in after.runs && ticket.jobId !in after.jobs <==>
                  Quotas.RunAdmission(facts, PendingCount(desk.jobs)).Ok? && AtDepthCeiling(facts, desk.jobs))
            && (ticket.runId in after.runs && ticket.jobId !in after.jobs ==> r == Err(QuotaExceeded))
  {
    var pending := PendingCount(desk.jobs);
    if Quotas.RunAdmission(facts, pending).Ok? {
      Quotas.JobAfterRun(facts, pending);
      assert Quotas.JobAdmission(facts, pending).Err? ==> Quotas.JobAdmission(facts, pending) == Err(QuotaExceeded);
    }
  }

  /** What an accepted event leaves: a queued run pinned to the version the caller was holding, and one pending
      turn that names the run, is due at once, and takes turns with those of the same version. */
  lemma EventLeaves(desk: Desk, facts: Quotas.Facts, source: Source, ticket: Ticket, clock: int)
    requires ticket.jobId !in desk.jobs && EnqueueEvent(desk, facts, source, ticket, clock).1.Ok?
    ensures var (after, r) := EnqueueEvent(desk, facts, source, ticket, clock);
            && r == Ok(ticket.jobId)
            && ticket.runId in after.runs && ticket.jobId in after.jobs
            && (forall id | id != ticket.jobId :: (id in after.jobs <==> id in desk.jobs)
                                                  && (id in desk.jobs ==> after.jobs[id] == desk.jobs[id]))
            && var run, job := after.runs[ticket.runId], after.jobs[ticket.jobId];
               && run.status == Ledger.Queued && run.versionId == source.version && run.id == ticket.runId
               && run.agent == (if source.agent.Some? then source.agent.value else "")
               && job.kind == "chat-turn" && job.payload == ticket.runId && job.status == Pending
               && job.runAt == clock / 1_000_000 && job.priority == 0 && job.seqNo == ticket.seqNo
               && job.maxAttempts == (if ticket.maxAttempts >= 1 then ticket.maxAttempts else 1)
               && job.concurrencyKey == source.version && job.concurrencyLimit.None?
  {
    hide Quotas.RunAdmission, Quotas.JobAdmission, Tags;
  }

  /** Such an event: one job pending where one is the ceiling, and nothing else in the way. */
  lemma StrandedRun(clock: int)
    ensures var facts := Quotas.Facts(true, Ok(map[Quotas.QueueDepth := 1.0]), false, map[]);
            var waiting := NewJob(TurnRequest(Source(None, None), "", 3), "first", clock, 0);
            var desk, source := Desk(map[], map["first" := waiting]), Source(Some("v1"), Some("agent"));
            var (after, r) := EnqueueEvent(desk, facts, source, Ticket("run", "second", 1, 3), clock);
            "run" in after.runs && "second" !in after.jobs && r == Err(QuotaExceeded)
  {
    var policy: Quotas.Policy := map[Quotas.QueueDepth := 1.0];
    var facts := Quotas.Facts(true, Ok(policy), false, map[]);
    var waiting := NewJob(TurnRequest(Source(None, None), "", 3), "first", clock, 0);
    var js: Jobs := map["first" := waiting];
    assert (set id | id in js && js[id].status == Pending) == {"first"};
    Quotas.RunKeys();
    assert Quotas.RunAdmission(facts, 1).Ok?;
    var source := Source(Some("v1"), Some("agent"));
    RunIsStrandedExactly(Desk(map[], js), facts, source, Ticket("run", "second", 1, 3), clock);
  }

  // ---- whole runs ------------------------------------------------------------------

  datatype Call =
    | EventCall(facts: Quotas.Facts, source: Source, ticket: Ticket, clock: int)
    | TurnCall(facts: Quotas.Facts, source: Source, ticket: Ticket, clock: int)
    | StatusCall(runId: string, status: Ledger.RunStatus)
    | QueueCall(call: QueueRuns.Call)

  function Next(desk: Desk, call: Call): Desk {
    match call
    case EventCall(facts, source, ticket, clock) => EnqueueEvent(desk, facts, source, ticket, clock).0
    case TurnCall(facts, source, ticket, clock) => CreateTurn(desk, facts, source, ticket, clock).0
    case StatusCall(runId, status) =>
      if runId in desk.runs then desk.(runs := desk.runs[runId := desk.runs[runId].(status := status)]) else desk
    case QueueCall(call) => desk.(jobs := QueueRuns.Next(desk.jobs, call))
  }

  /** Ids are generated new, a turn of its own adopts no run, and nothing else enqueues turns. */
  ghost predicate Possible(desk: Desk, call: Call) {
    match call
    case EventCall(_, _, ticket, _) => ticket.runId != "" && ticket.runId !in desk.runs && ticket.jobId !in desk.jobs
    case TurnCall(_, _, ticket, _) => ticket.runId == "" && ticket.jobId !in desk.jobs
    case StatusCall(_, _) => true
    case QueueCall(call) => QueueRuns.Possible(desk.jobs, call) && (call.EnqueueCall? ==> call.req.kind != TURN_JOB)
  }

  ghost predicate Run(desks: seq<Desk>, calls: seq<Call>) {
    && |desks| == |calls| + 1
    && desks[0] == Desk(map[], map[])
    && forall i | 0 <= i < |calls| :: Possible(desks[i], calls[i]) && desks[i + 1] == Next(desks[i], calls[i])
  }

  /** A turn that adopts a run is there for that run's own version and agent. */
  ghost predicate Pinned(desk: Desk, j: JobId) {
    j in desk.jobs && desk.jobs[j].kind == TURN_JOB && desk.jobs[j].payload != "" ==>
      var runId := desk.jobs[j].payload;
      runId in desk.runs && desk.jobs[j].metadata == Tags(desk.runs[runId].versionId, Some(desk.runs[runId].agent))
  }

  ghost predicate Inv(desk: Desk) {
    && (forall j | j in desk.jobs :: desk.jobs[j].id == j)
    && (forall j :: Pinned(desk, j))
  }

  lemma TurnKeepsInv(desk: Desk, facts: Quotas.Facts, source: Source, ticket: Ticket, clock: int)
    requires Inv(desk) && ticket.jobId !in desk.jobs
    requires ticket.runId != "" ==>
               ticket.runId in desk.runs && desk.runs[ticket.runId] == QueuedRun(source, ticket.runId)
    ensures Inv(CreateTurn(desk, facts, source, ticket, clock).0)
  {
    var after := CreateTurn(desk, facts, source, ticket, clock).0;
    if Quotas.JobAdmission(facts, PendingCount(desk.jobs)).Ok? {
      var job := NewJob(TurnRequest(source, ticket.runId, ticket.maxAttempts), ticket.jobId, clock, ticket.seqNo);
      assert after == desk.(jobs := desk.jobs[ticket.jobId := job]);
      assert job.id == ticket.jobId && job.payload == ticket.runId;
      assert job.metadata == Tags(source.version, source.agent);
      forall j
        ensures Pinned(after, j)
      {
        assert Pinned(desk, j);
      }
    }
  }

  lemma QueueCallKeepsInv(desk: Desk, call: QueueRuns.Call)
    requires Inv(desk) && Possible(desk, QueueCall(call))
    ensures Inv(Next(desk, QueueCall(call)))
  {
    hide QueueRuns.Next, QueueRuns.Possible, Tags;
    var after := Next(desk, QueueCall(call));
    forall j | j in after.jobs
      ensures after.jobs[j].id == j
    {
      SameOrNew(desk.jobs, call, j);
    }
    forall j
      ensures Pinned(after, j)
    {
      assert Pinned(desk, j);
      if j in after.jobs {
        SameOrNew(desk.jobs, call, j);
      }
    }
  }

  /** A job the queue call leaves behind is the one it was, or one that was enqueued under another type. */
  lemma SameOrNew(js: Jobs, call: QueueRuns.Call, j: JobId)
    requires (forall id | id in js :: js[id].id == id) && QueueRuns.Possible(js, call)
    requires j in QueueRuns.Next(js, call)
    ensures var job := QueueRuns.Next(js, call)[j];
            && job.id == j
            && (j in js ==> job.kind == js[j].kind && job.payload == js[j].payload && job.metadata == js[j].metadata)
            && (j !in js ==> call.EnqueueCall? && job.kind == call.req.kind)
  {
    hide QueueRuns.Next, QueueRuns.Possible, QueueRuns.JobNext;
    if j in js {
      QueueRuns.ContentIsKept(js, call, j);
      QueueRuns.NextIsJobNext(js, call, j);
      QueueRuns.IdIsKept(js[j], call);
    } else {
      QueueRuns.NewJobsAreFresh(js, call, j);
    }
  }

  lemma NextKeepsInv(desk: Desk, call: Call)
    requires Inv(desk) && Possible(desk, call)
    ensures Inv(Next(desk, call))
  {
    hide Tags, CreateTurn, Quotas.RunAdmission;
    match call
    case EventCall(facts, source, ticket, clock) =>
      var written := desk.(runs := desk.runs[ticket.runId := QueuedRun(source, ticket.runId)]);
      forall j
        ensures Pinned(written, j)
      {
        assert Pinned(desk, j);
      }
      TurnKeepsInv(written, facts, source, ticket, clock);
    case TurnCall(facts, source, ticket, clock) => TurnKeepsInv(desk, facts, source, ticket, clock);
    case StatusCall(runId, _) =>
      forall j
        ensures Pinned(Next(desk, call), j)
      {
        assert Pinned(desk, j);
      }
    case QueueCall(call) => QueueCallKeepsInv(desk, call);
  }

  lemma {:induction false} RunKeepsInv(desks: seq<Desk>, calls: seq<Call>, n: nat)
    requires Run(desks, calls) && n < |desks|
    ensures Inv(desks[n])
  {
    if n > 0 {
      RunKeepsInv(desks, calls, n - 1);
      hide Next, Possible, Inv;
      assert Possible(desks[n - 1], calls[n - 1]);
      NextKeepsInv(desks[n - 1], calls[n - 1]);
    }
  }

  /** Whatever has happened since an event came in, a worker that names its version or agent keeps the turn
      of its run only if that is what the run was pinned to. */
  lemma RunsOnItsPin(desks: seq<Desk>, calls: seq<Call>, n: nat, j: JobId)
    requires Run(desks, calls) && n < |calls| && calls[n].QueueCall? && calls[n].call.ClaimCall?
    requires j in desks[n].jobs && desks[n].jobs[j].kind == TURN_JOB && desks[n].jobs[j].payload != ""
    requires QueueRuns.KeptClaim(desks[n].jobs, calls[n].call, j, calls[n].call.ask.worker)
    ensures desks[n].jobs[j].payload in desks[n].runs
    ensures var ask, run := calls[n].call.ask, desks[n].runs[desks[n].jobs[j].payload];
            && (ask.version.Some? && Truthy(run.versionId) ==> ask.version == run.versionId)
            && (ask.agent.Some? && run.agent != "" ==> ask.agent == Some(run.agent))
  {
    RunKeepsInv(desks, calls, n);
    assert Pinned(desks[n], j);
    hide Run, Next, Possible, Inv;
    var run := desks[n].runs[desks[n].jobs[j].payload];
    TagsAreRead(desks[n].jobs[j], run.versionId, Some(run.agent));
  }

  lemma TagsAreRead(job: Job, version: Option<string>, agent: Option<string>)
    requires job.metadata == Tags(version, agent)
    ensures Truthy(version) ==> VersionOf(job) == version
    ensures Truthy(agent) ==> AgentOf(job) == agent
  {
  }
}
