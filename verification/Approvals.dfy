/** Approvals of paused runs: the decision recorded by the control plane, the resume carried out by
    a worker that holds the run's own version. */
module Approvals {
  import opened Outcomes
  import opened QueueJobs
  import opened QueueStore
  import Ledger
  import Quotas
  import Queue

  type ApprovalId = string
  type RunId = string

  datatype Decision = AwaitingDecision | Approving | Approved | Rejected

  datatype Approval = Approval(runId: RunId, decision: Decision, resolvedBy: Option<string>)

  datatype PausedRun = PausedRun(agent: Option<string>, versionId: Option<string>, status: Ledger.RunStatus)

  datatype Desk = Desk(approvals: map<ApprovalId, Approval>, runs: map<RunId, PausedRun>, jobs: Jobs)

  const RESUME_JOB := "approval-resume"

  /** The agent and the version the paused run recorded, as tags on its resume job. */
  function Tags(run: PausedRun): map<string, string> {
    (if Truthy(run.agent) then map["agent" := run.agent.value] else map[]) +
    (if Truthy(run.versionId) then map["versionId" := run.versionId.value] else map[])
  }

  function ResumeRequest(id: ApprovalId, run: PausedRun, maxAttempts: int): Request {
    Request(RESUME_JOB, id, None, maxAttempts, 0, 0, Tags(run), run.versionId, None, None)
  }

  /** What stands in the way of approving, if anything does. */
  function Objection(desk: Desk, id: ApprovalId): Option<Error> {
    if id !in desk.approvals then Some(ApprovalNotFound)
    else if desk.approvals[id].decision != AwaitingDecision then Some(ApprovalNotPending)
    else if desk.approvals[id].runId !in desk.runs then Some(RunNotFound)
    else if desk.runs[desk.approvals[id].runId].status != Ledger.WaitingApproval then Some(RunNotPaused)
    else None
  }

  function Decided(desk: Desk, id: ApprovalId, decision: Decision, actor: Option<string>): Desk
    requires id in desk.approvals
  {
    desk.(approvals := desk.approvals[id := desk.approvals[id].(decision := decision, resolvedBy := actor)])
  }

  /** Record the approval, then hand its resume to the queue, which may still refuse. */
  function EnqueueResume(desk: Desk, id: ApprovalId, actor: Option<string>, maxAttempts: int,
                         newId: JobId, clock: int, seqNo: nat, admit: Result<()>): (Desk, Result<Job>) {
    if Objection(desk, id).Some? then (desk, Err(Objection(desk, id).value))
    else
      var run := desk.runs[desk.approvals[id].runId];
      var (jobs, r) := Enqueue(desk.jobs, ResumeRequest(id, run, maxAttempts), newId, clock, seqNo, admit);
      (Decided(desk, id, Approving, actor).(jobs := jobs), r)
  }

  /** Reject an approval, decided or not, as long as no worker has carried it out. */
  function RejectApproval(desk: Desk, id: ApprovalId, actor: Option<string>): (Desk, Result<()>) {
    if id !in desk.approvals then (desk, Err(ApprovalNotFound))
    else if desk.approvals[id].decision != AwaitingDecision && desk.approvals[id].decision != Approving then
      (desk, Err(ApprovalNotPending))
    else if desk.approvals[id].runId !in desk.runs then (desk, Err(RunNotFound))
    else (WithStatus(Decided(desk, id, Rejected, actor), desk.approvals[id].runId, Ledger.Rejected), Ok(()))
  }

  function WithStatus(desk: Desk, run: RunId, status: Ledger.RunStatus): Desk
    requires run in desk.runs
  {
    desk.(runs := desk.runs[run := desk.runs[run].(status := status)])
  }

  /** The engine carries an approval out: it acts, and unless the action raised, records that it did. */
  function CarryOut(desk: Desk, id: ApprovalId, actor: Option<string>, raised: bool): (Desk, Result<()>) {
    if id !in desk.approvals then (desk, Err(ApprovalNotFound))
    else if desk.approvals[id].decision != AwaitingDecision && desk.approvals[id].decision != Approving then
      (desk, Err(ApprovalNotPending))
    else if desk.approvals[id].runId !in desk.runs then (desk, Err(RunNotFound))
    else if desk.runs[desk.approvals[id].runId].status != Ledger.WaitingApproval then (desk, Err(RunNotPaused))
    else if raised then (desk, Err(Validation))
    else (WithStatus(Decided(desk, id, Approved, actor), desk.approvals[id].runId, Ledger.Executing), Ok(()))
  }

  class ApprovalStore {
    var approvals: map<ApprovalId, Approval>
    var runs: map<RunId, PausedRun>
    const queue: Directory

    constructor (queue: Directory)
      ensures this.queue == queue && approvals == map[] && runs == map[]
    {
      this.queue := queue;
      approvals, runs := map[], map[];
    }

    ghost function Read(): Desk
      reads this, queue
    {
      Desk(approvals, runs, queue.jobs)
    }

    method Resume(id: ApprovalId, actor: Option<string>, maxAttempts: int, newId: JobId, clock: int, seqNo: nat)
      returns (r: Result<Job>)
      requires queue.Valid()
      modifies this, queue`jobs
      ensures queue.Valid()
      ensures (Read(), r) == EnqueueResume(old(Read()), id, actor, maxAttempts, newId, clock, seqNo,
                                           Quotas.JobAdmission(queue.facts, PendingCount(old(queue.jobs))))
    {
      if id !in approvals {
        return Err(ApprovalNotFound);
      }
      var approval := approvals[id];
      if approval.decision != AwaitingDecision {
        return Err(ApprovalNotPending);
      }
      if approval.runId !in runs {
        return Err(RunNotFound);
      }
      var run := runs[approval.runId];
      if run.status != Ledger.WaitingApproval {
        return Err(RunNotPaused);
      }
      approvals := approvals[id := approval.(decision := Approving, resolvedBy := actor)];
      r := Queue.EnqueueJob(queue, ResumeRequest(id, run, maxAttempts), newId, clock, seqNo);
    }

    method Reject(id: ApprovalId, actor: Option<string>) returns (r: Result<()>)
      modifies this
      ensures (Read(), r) == RejectApproval(old(Read()), id, actor)
    {
      if id !in approvals {
        return Err(ApprovalNotFound);
      }
      var approval := approvals[id];
      if approval.decision != AwaitingDecision && approval.decision != Approving {
        return Err(ApprovalNotPending);
      }
      if approval.runId !in runs {
        return Err(RunNotFound);
      }
      approvals := approvals[id := approval.(decision := Rejected, resolvedBy := actor)];
      runs := runs[approval.runId := runs[approval.runId].(status := Ledger.Rejected)];
      r := Ok(());
    }
  }
}
