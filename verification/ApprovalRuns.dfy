/** Whole runs of the approval desk, the queue running beside it. */
module ApprovalRuns {
  import opened Outcomes
  import opened QueueJobs
  import opened Approvals
  import opened QueueStore
  import QueueRuns
  import Ledger
  import Quotas

  datatype Call =
    | PauseCall(id: ApprovalId, runId: RunId, run: PausedRun)
    | ResumeCall(id: ApprovalId, actor: Option<string>, maxAttempts: int, newId: JobId, clock: int, seqNo: nat,
                 facts: Quotas.Facts)
    | RejectCall(id: ApprovalId, actor: Option<string>)
    | CarryOutCall(id: ApprovalId, actor: Option<string>, raised: bool)
    | StatusCall(runId: RunId, status: Ledger.RunStatus)
    | QueueCall(call: QueueRuns.Call)

  /** A run pauses on a new approval; the run may be new, or one that has paused before. */
  function Pause(desk: Desk, id: ApprovalId, runId: RunId, run: PausedRun): Desk {
    desk.(approvals := desk.approvals[id := Approval(runId, AwaitingDecision, None)],
          runs := desk.runs[runId := if runId in desk.runs then desk.runs[runId].(status := Ledger.WaitingApproval)
                                     else run.(status := Ledger.WaitingApproval)])
  }

  function Next(desk: Desk, call: Call): Desk {
    match call
    case PauseCall(id, runId, run) => Pause(desk, id, runId, run)
    case ResumeCall(id, actor, maxAttempts, newId, clock, seqNo, facts) =>
      var admit := Quotas.JobAdmission(facts, PendingCount(desk.jobs));
      EnqueueResume(desk, id, actor, maxAttempts, newId, clock, seqNo, admit).0
    case RejectCall(id, actor) => RejectApproval(desk, id, actor).0
    case CarryOutCall(id, actor, raised) => CarryOut(desk, id, actor, raised).0
    case StatusCall(runId, status) => if runId in desk.runs then WithStatus(desk, runId, status) else desk
    case QueueCall(call) => desk.(jobs := QueueRuns.Next(desk.jobs, call))
  }

  /** Ids are generated new, and only the approval desk enqueues resumes. */
  ghost predicate Possible(desk: Desk, call: Call) {
    match call
    case PauseCall(id, _, _) => id !in desk.approvals
    case ResumeCall(_, _, _, newId, _, _, _) => newId !in desk.jobs
    case QueueCall(call) => QueueRuns.Possible(desk.jobs, call) && (call.EnqueueCall? ==> call.req.kind != RESUME_JOB)
    case _ => true
  }

  ghost predicate Run(desks: seq<Desk>, calls: seq<Call>) {
    && |desks| == |calls| + 1
    && desks[0] == Desk(map[], map[], map[])
    && forall i | 0 <= i < |calls| :: Possible(desks[i], calls[i]) && desks[i + 1] == Next(desks[i], calls[i])
  }

  function ResumeJobs(js: Jobs, id: ApprovalId): set<JobId> {
    set j | j in js && js[j].kind == RESUME_JOB && js[j].payload == id
  }

  // ---- the invariant ---------------------------------------------------------------

  ghost predicate ApprovalInv(desk: Desk, id: ApprovalId) {
    && |ResumeJobs(desk.jobs, id)| <= 1
    && (id !in desk.approvals || desk.approvals[id].decision == AwaitingDecision ==> ResumeJobs(desk.jobs, id) == {})
  }

  /** A resume job carries the tags of the run its approval paused. */
  ghost predicate Tagged(desk: Desk, j: JobId) {
    j in desk.jobs && desk.jobs[j].kind == RESUME_JOB ==>
      var id := desk.jobs[j].payload;
      && id in desk.approvals && desk.approvals[id].runId in desk.runs
      && desk.jobs[j].metadata == Tags(desk.runs[desk.approvals[id].runId])
  }

  ghost predicate Inv(desk: Desk) {
    && QueueRuns.Inv(desk.jobs)
    && (forall id :: ApprovalInv(desk, id))
    && (forall j :: Tagged(desk, j))
  }

  /** No call on the queue makes, unmakes or retags a resume job. */
  lemma QueueCallsKeepResumes(js: Jobs, call: QueueRuns.Call, id: ApprovalId)
    requires QueueRuns.Inv(js) && QueueRuns.Possible(js, call) && (call.EnqueueCall? ==> call.req.kind != RESUME_JOB)
    ensures ResumeJobs(QueueRuns.Next(js, call), id) == ResumeJobs(js, id)
    ensures forall j | j in ResumeJobs(js, id) :: QueueRuns.Next(js, call)[j].metadata == js[j].metadata
  {
    hide QueueRuns.Next, QueueRuns.Possible, QueueRuns.JobNext, QueueRuns.JobInv;
    var after := QueueRuns.Next(js, call);
    forall j | j in js
      ensures j in after && after[j].kind == js[j].kind && after[j].payload == js[j].payload
              && after[j].metadata == js[j].metadata
    {
      QueueRuns.ContentIsKept(js, call, j);
    }
    forall j | j in after && j !in js
      ensures after[j].kind != RESUME_JOB
    {
      QueueRuns.NewJobsAreFresh(js, call, j);
    }
  }

  lemma ResumeAddsOne(desk: Desk, call: Call)
    requires call.ResumeCall? && Possible(desk, call) && Objection(desk, call.id).None?
    ensures var after := Next(desk, call);
            && after.approvals == Decided(desk, call.id, Approving, call.actor).approvals && after.runs == desk.runs
            && if Quotas.JobAdmission(call.facts, PendingCount(desk.jobs)).Ok?
               then exists job: Job ::
                      && after.jobs == desk.jobs[call.newId := job]
                      && job.kind == RESUME_JOB && job.payload == call.id
                      && job.metadata == Tags(desk.runs[desk.approvals[call.id].runId])
                      && job.id == call.newId && QueueRuns.JobInv(job)
               else after.jobs == desk.jobs
  {
    if Quotas.JobAdmission(call.facts, PendingCount(desk.jobs)).Ok? {
      var run := desk.runs[desk.approvals[call.id].runId];
      var job := NewJob(ResumeRequest(call.id, run, call.maxAttempts), call.newId, call.clock, call.seqNo);
      assert Next(desk, call).jobs == desk.jobs[call.newId := job];
    }
  }

  lemma ResumeKeepsInv(desk: Desk, call: Call)
    requires call.ResumeCall? && Inv(desk) && Possible(desk, call)
    ensures Inv(Next(desk, call))
  {
    if Objection(desk, call.id).None? {
      ResumeAddsOne(desk, call);
      var after := Next(desk, call);
      hide Tags, QueueRuns.JobInv, Next;
      forall id
        ensures ApprovalInv(after, id)
      {
        assert ApprovalInv(desk, id);
        if id == call.id && Quotas.JobAdmission(call.facts, PendingCount(desk.jobs)).Ok? {
          assert ResumeJobs(after.jobs, id) == {call.newId};
        } else {
          assert ResumeJobs(after.jobs, id) == ResumeJobs(desk.jobs, id);
        }
      }
      forall j
        ensures Tagged(after, j)
      {
        assert Tagged(desk, j);
      }
    }
  }

  lemma QueueCallKeepsInv(desk: Desk, call: Call)
    requires call.QueueCall? && Inv(desk) && Possible(desk, call)
    ensures Inv(Next(desk, call))
  {
    QueueRuns.NextKeepsInv(desk.jobs, call.call);
    hide QueueRuns.Next, QueueRuns.Inv, QueueRuns.Possible, Tags;
    var after := Next(desk, call);
    forall id
      ensures ApprovalInv(after, id)
    {
      assert ApprovalInv(desk, id);
      QueueCallsKeepResumes(desk.jobs, call.call, id);
    }
    forall j
      ensures Tagged(after, j)
    {
      if j in after.jobs && after.jobs[j].kind == RESUME_JOB {
        QueueCallsKeepResumes(desk.jobs, call.call, after.jobs[j].payload);
        assert j in ResumeJobs(after.jobs, after.jobs[j].payload);
        assert Tagged(desk, j);
      }
    }
  }

  lemma OtherCallsKeepInv(desk: Desk, call: Call)
    requires !call.QueueCall? && !call.ResumeCall? && Inv(desk) && Possible(desk, call)
    ensures Inv(Next(desk, call))
  {
    hide QueueRuns.Inv, ResumeJobs;
    var after := Next(desk, call);
    assert after.jobs == desk.jobs;
    forall id
      ensures ApprovalInv(after, id)
    {
      assert ApprovalInv(desk, id);
    }
    forall j
      ensures Tagged(after, j)
    {
      assert Tagged(desk, j);
    }
  }

  lemma NextKeepsInv(desk: Desk, call: Call)
    requires Inv(desk) && Possible(desk, call)
    ensures Inv(Next(desk, call))
  {
    hide Inv, Next, Possible;
    if call.QueueCall? {
      QueueCallKeepsInv(desk, call);
    } else if call.ResumeCall? {
      ResumeKeepsInv(desk, call);
    } else {
      OtherCallsKeepInv(desk, call);
    }
  }

  /** Over every run an approval has at most one resume job, none while it awaits its decision, and every
      resume job carries the agent and the version of the run that paused. */
  lemma {:induction false} RunKeepsInv(desks: seq<Desk>, calls: seq<Call>, n: nat)
    requires Run(desks, calls) && n < |desks|
    ensures Inv(desks[n])
  {
    if n == 0 {
      NothingYet();
    } else {
      RunKeepsInv(desks, calls, n - 1);
      NextKeepsInv(desks[n - 1], calls[n - 1]);
    }
  }

  lemma NothingYet()
    ensures Inv(Desk(map[], map[], map[]))
  {
    forall id
      ensures ApprovalInv(Desk(map[], map[], map[]), id)
    {
      assert ResumeJobs(map[], id) == {};
    }
  }

  lemma AtMostOneResume(desks: seq<Desk>, calls: seq<Call>, n: nat, id: ApprovalId)
    requires Run(desks, calls) && n < |desks|
    ensures |ResumeJobs(desks[n].jobs, id)| <= 1
  {
    RunKeepsInv(desks, calls, n);
    assert ApprovalInv(desks[n], id);
  }

  // ---- decisions -------------------------------------------------------------------

  predicate IsDecided(desk: Desk, id: ApprovalId) {
    id in desk.approvals && desk.approvals[id].decision != AwaitingDecision
  }

  /** A decided approval stays decided, gets no resume job any more, and keeps the outcome it has. */
  lemma StepKeepsDecision(desk: Desk, call: Call, id: ApprovalId)
    requires Inv(desk) && Possible(desk, call) && IsDecided(desk, id)
    ensures IsDecided(Next(desk, call), id)
    ensures ResumeJobs(Next(desk, call).jobs, id) == ResumeJobs(desk.jobs, id)
    ensures desk.approvals[id].decision in {Approved, Rejected} ==>
            Next(desk, call).approvals[id].decision == desk.approvals[id].decision
  {
    if call.QueueCall? {
      QueueCallsKeepResumes(desk.jobs, call.call, id);
    } else if call.ResumeCall? {
      if Objection(desk, call.id).None? {
        ResumeAddsOne(desk, call);
      }
    } else {
      assert Next(desk, call).jobs == desk.jobs;
    }
  }

  lemma DecisionAfterStep(desks: seq<Desk>, calls: seq<Call>, n: nat, id: ApprovalId)
    requires Run(desks, calls) && n < |calls| && IsDecided(desks[n], id)
    ensures IsDecided(desks[n + 1], id)
    ensures ResumeJobs(desks[n + 1].jobs, id) == ResumeJobs(desks[n].jobs, id)
    ensures desks[n].approvals[id].decision in {Approved, Rejected} ==>
            desks[n + 1].approvals[id].decision == desks[n].approvals[id].decision
  {
    RunKeepsInv(desks, calls, n);
    hide Next, Inv, ResumeJobs;
    StepKeepsDecision(desks[n], calls[n], id);
  }

  /** Nothing is enqueued for an approval once it is decided, rejected ones included, and what has been
      carried out or rejected stays so. */
  lemma {:induction false} DecisionsAreFinal(desks: seq<Desk>, calls: seq<Call>, m: nat, n: nat, id: ApprovalId)
    requires Run(desks, calls) && m <= n < |desks| && IsDecided(desks[m], id)
    ensures IsDecided(desks[n], id)
    ensures ResumeJobs(desks[n].jobs, id) == ResumeJobs(desks[m].jobs, id)
    ensures desks[m].approvals[id].decision in {Approved, Rejected} ==>
            desks[n].approvals[id].decision == desks[m].approvals[id].decision
  {
    hide Next, Possible, ResumeJobs;
    if m < n {
      DecisionsAreFinal(desks, calls, m, n - 1, id);
      DecisionAfterStep(desks, calls, n - 1, id);
    }
  }

  predicate Acts(desk: Desk, call: Call, id: ApprovalId) {
    call.CarryOutCall? && call.id == id && CarryOut(desk, id, call.actor, call.raised).1.Ok?
  }

  predicate Rejects(desk: Desk, call: Call, id: ApprovalId) {
    call.RejectCall? && call.id == id && RejectApproval(desk, id, call.actor).1.Ok?
  }

  /** An approval is carried out or rejected once at most, in whatever order workers and people try. */
  lemma SettledOnce(desks: seq<Desk>, calls: seq<Call>, m: nat, n: nat, id: ApprovalId)
    requires Run(desks, calls) && m < n < |calls|
    requires Acts(desks[m], calls[m], id) || Rejects(desks[m], calls[m], id)
    ensures !Acts(desks[n], calls[n], id) && !Rejects(desks[n], calls[n], id)
  {
    SettlingDecides(desks[m], calls[m], id);
    assert desks[m + 1] == Next(desks[m], calls[m]);
    DecisionsAreFinal(desks, calls, m + 1, n, id);
    SettledIsRefused(desks[n], calls[n], id);
  }

  lemma SettlingDecides(desk: Desk, call: Call, id: ApprovalId)
    requires Acts(desk, call, id) || Rejects(desk, call, id)
    ensures IsDecided(Next(desk, call), id) && Next(desk, call).approvals[id].decision in {Approved, Rejected}
  {
  }

  lemma SettledIsRefused(desk: Desk, call: Call, id: ApprovalId)
    requires id in desk.approvals && desk.approvals[id].decision in {Approved, Rejected}
    ensures !Acts(desk, call, id) && !Rejects(desk, call, id)
  {
  }

  /** An approval that was accepted has its resume job exactly when the queue admitted it; refused, it is
      left decided, without a job, and no second approval is accepted. */
  lemma ResumeHasAJobExactly(desk: Desk, call: Call)
    requires Inv(desk) && call.ResumeCall? && Possible(desk, call) && Objection(desk, call.id).None?
    ensures var after := Next(desk, call);
            && after.approvals[call.id].decision == Approving
            && (ResumeJobs(after.jobs, call.id) != {} <==> Quotas.JobAdmission(call.facts, PendingCount(desk.jobs)).Ok?)
            && Objection(after, call.id) == Some(ApprovalNotPending)
  {
    ResumeAddsOne(desk, call);
    assert ApprovalInv(desk, call.id);
    if Quotas.JobAdmission(call.facts, PendingCount(desk.jobs)).Ok? {
      assert call.newId in ResumeJobs(Next(desk, call).jobs, call.id);
    }
  }

  // ---- what a decision leaves ------------------------------------------------------

  /** One approval, its run and nothing else have moved on. */
  predicate MovedOn(desk: Desk, after: Desk, id: ApprovalId, decision: Decision, actor: Option<string>,
                    status: Ledger.RunStatus) {
    && id in desk.approvals && desk.approvals[id].runId in desk.runs
    && var runId := desk.approvals[id].runId;
       && after.approvals == desk.approvals[id := Approval(runId, decision, actor)]
       && after.runs == desk.runs[runId := PausedRun(desk.runs[runId].agent, desk.runs[runId].versionId, status)]
       && after.jobs == desk.jobs
  }

  /** A rejection is taken while nobody has carried the approval out or rejected it, whatever the run is doing;
      it leaves both the approval and its run rejected, and the queue alone. */
  lemma RejectionEndsTheRun(desk: Desk, id: ApprovalId, actor: Option<string>)
    ensures var (after, r) := RejectApproval(desk, id, actor);
            if id !in desk.approvals then after == desk && r == Err(ApprovalNotFound)
            else if desk.approvals[id].decision in {Approved, Rejected} then
              after == desk && r == Err(ApprovalNotPending)
            else if desk.approvals[id].runId !in desk.runs then after == desk && r == Err(RunNotFound)
            else r == Ok(()) && MovedOn(desk, after, id, Rejected, actor, Ledger.Rejected)
  {
  }

  /** An approval is carried out only for a run that is waiting for it: then it is approved and the run goes on,
      and if the action raises, both stay as they were. */
  lemma CarryingOutResumesTheRun(desk: Desk, id: ApprovalId, actor: Option<string>, raised: bool)
    ensures var (after, r) := CarryOut(desk, id, actor, raised);
            && (r.Err? ==> after == desk)
            && (r.Ok? <==>
                  && id in desk.approvals && desk.approvals[id].decision in {AwaitingDecision, Approving}
                  && desk.approvals[id].runId in desk.runs
                  && desk.runs[desk.approvals[id].runId].status == Ledger.WaitingApproval
                  && !raised)
            && (r.Ok? ==> MovedOn(desk, after, id, Approved, actor, Ledger.Executing))
  {
  }

  /** An approval is taken exactly while it is undecided and its run waits for it, and is on record from then on,
      whatever the queue says; its resume, if admitted, is one pending job, due at once, that names the approval
      and takes turns with the work of the run's version. */
  lemma ApprovingLeaves(desk: Desk, id: ApprovalId, actor: Option<string>, maxAttempts: int, newId: JobId, clock: int,
                        seqNo: nat, admit: Result<()>)
    requires newId !in desk.jobs
    ensures var (after, r) := EnqueueResume(desk, id, actor, maxAttempts, newId, clock, seqNo, admit);
            if id in desk.approvals && desk.approvals[id].decision == AwaitingDecision
               && desk.approvals[id].runId in desk.runs
               && desk.runs[desk.approvals[id].runId].status == Ledger.WaitingApproval
            then
              var runId := desk.approvals[id].runId;
              && after.approvals == desk.approvals[id := Approval(runId, Approving, actor)] && after.runs == desk.runs
              && (admit.Err? ==> r == Err(admit.error) && after.jobs == desk.jobs)
              && (admit.Ok? ==> r.Ok? && after.jobs == desk.jobs[newId := r.value]
                                && IsResume(r.value, id, desk.runs[runId], maxAttempts, clock))
            else after == desk && r.Err?
  {
    hide Tags;
  }

  predicate IsResume(job: Job, id: ApprovalId, run: PausedRun, maxAttempts: int, clock: int) {
    && job.kind == "approval-resume" && job.payload == id && job.status == Pending
    && job.runAt == clock / 1_000_000 && job.priority == 0
    && job.maxAttempts == (if maxAttempts >= 1 then maxAttempts else 1)
    && job.concurrencyKey == run.versionId && job.concurrencyLimit.None?
  }

  /** Once a rejection was taken, no worker carries the approval out any more, a resume that was enqueued before
      included, and the version the run was pinned to is free of it. */
  lemma RejectedIsNotCarriedOut(desks: seq<Desk>, calls: seq<Call>, m: nat, n: nat, id: ApprovalId)
    requires Run(desks, calls) && m < n < |calls| && Rejects(desks[m], calls[m], id)
    ensures !Acts(desks[n], calls[n], id)
    ensures id in desks[m].approvals && desks[m].approvals[id].runId in desks[m + 1].runs
    ensures Ledger.Terminal(desks[m + 1].runs[desks[m].approvals[id].runId].status)
  {
    SettledOnce(desks, calls, m, n, id);
    RejectionEndsTheRun(desks[m], id, calls[m].actor);
    assert desks[m + 1] == Next(desks[m], calls[m]);
  }

  // ---- who resumes -----------------------------------------------------------------

  /** A claim that names a version or an agent takes a resume only if that is what the paused run
      recorded, or the run recorded none. */
  lemma ResumedByItsOwn(desks: seq<Desk>, calls: seq<Call>, n: nat, j: JobId)
    requires Run(desks, calls) && n < |calls| && calls[n].QueueCall? && calls[n].call.ClaimCall?
    requires calls[n].call.ask.worker != ""
    requires j in desks[n].jobs && desks[n].jobs[j].kind == RESUME_JOB
    requires QueueRuns.KeptClaim(desks[n].jobs, calls[n].call, j, calls[n].call.ask.worker)
    ensures var ask, id := calls[n].call.ask, desks[n].jobs[j].payload;
            && id in desks[n].approvals && desks[n].approvals[id].runId in desks[n].runs
            && var run := desks[n].runs[desks[n].approvals[id].runId];
               && (ask.version.Some? && Truthy(run.versionId) ==> ask.version == run.versionId)
               && (ask.agent.Some? && Truthy(run.agent) ==> ask.agent == run.agent)
  {
    RunKeepsInv(desks, calls, n);
    assert Tagged(desks[n], j);
    hide Run, Next, Possible;
    TagsAreRead(desks[n].jobs[j], desks[n].runs[desks[n].approvals[desks[n].jobs[j].payload].runId]);
  }

  lemma TagsAreRead(job: Job, run: PausedRun)
    requires job.metadata == Tags(run)
    ensures Truthy(run.versionId) ==> VersionOf(job) == run.versionId
    ensures Truthy(run.agent) ==> AgentOf(job) == run.agent
  {
  }
}
