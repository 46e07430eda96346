/** What one `claim` call brings back, and what the concurrency caps hold it to. */
module QueueClaims {
  import opened Outcomes
  import opened QueueJobs
  import opened QueueRuns
  import opened Sets

  // ---- filters ---------------------------------------------------------------------

  function Due(js: Jobs, ask: Ask): set<JobId> {
    set id | id in js && js[id].status == Pending && TypeAllowed(ask.types, js[id]) && js[id].runAt <= ask.Now()
  }

  function DueForeign(js: Jobs, ask: Ask): set<JobId> {
    set id | id in Due(js, ask) && ask.Foreign(js[id])
  }

  function DueMatching(js: Jobs, ask: Ask): set<JobId> {
    set id | id in Due(js, ask) && !ask.Foreign(js[id])
  }

  function SetOf(ids: seq<JobId>): set<JobId> {
    set id | id in ids
  }

  lemma {:induction false} DistinctSize(ids: seq<JobId>)
    requires forall i, j | 0 <= i < j < |ids| :: ids[i] != ids[j]
    ensures |SetOf(ids)| == |ids|
  {
    if ids != [] {
      var n := |ids| - 1;
      DistinctSize(ids[..n]);
      assert SetOf(ids) == SetOf(ids[..n]) + {ids[n]};
      assert ids[n] !in ids[..n];
    }
  }

  /** A job picked once is not picked again. */
  lemma PicksAreFresh(js: Jobs, picks: seq<JobId>, ask: Ask)
    requires picks != [] && Picked(js, picks, ask) && forall p | p in picks :: p in js
    ensures picks[|picks| - 1] !in picks[..|picks| - 1]
  {
    PicksWerePending(js, picks, ask);
  }

  /** The loop never takes more than it wanted, and takes each job once. */
  lemma {:induction false} MineIsBounded(js: Jobs, picks: seq<JobId>, ask: Ask)
    requires Picked(js, picks, ask) && forall p | p in picks :: p in js
    ensures |Mine(js, picks, ask)| <= ask.Wanted()
    ensures forall i, j | 0 <= i < j < |Mine(js, picks, ask)| :: Mine(js, picks, ask)[i] != Mine(js, picks, ask)[j]
  {
    if picks != [] {
      var before, id := picks[..|picks| - 1], picks[|picks| - 1];
      MineIsBounded(js, before, ask);
      PicksAreFresh(js, picks, ask);
      assert id !in Mine(js, before, ask);
    }
  }

  /** One claim call returns distinct jobs, at most 50 and at most what was asked for, all of them
      due and none of them pinned to another version or owned by another agent. */
  lemma ClaimReturnsItsOwn(js: Jobs, picks: seq<JobId>, ask: Ask)
    requires Finished(js, picks, ask)
    ensures |Mine(js, picks, ask)| <= ask.Wanted() <= MAX_CLAIM_LIMIT
    ensures |picks| <= MAX_CLAIM_LIMIT
    ensures forall i, j | 0 <= i < j < |Mine(js, picks, ask)| :: Mine(js, picks, ask)[i] != Mine(js, picks, ask)[j]
    ensures forall id | id in Mine(js, picks, ask) :: id in Due(js, ask) && !ask.Foreign(js[id])
  {
    PicksWerePending(js, picks, ask);
    MineIsBounded(js, picks, ask);
  }

  /** Each returned job is held by the caller, leased until the asked-for moment, and has one attempt
      more, within its budget. */
  lemma ClaimLeasesTheJob(js: Jobs, picks: seq<JobId>, ask: Ask, id: JobId)
    requires Inv(js) && Finished(js, picks, ask) && id in Mine(js, picks, ask)
    ensures var after := AfterClaim(js, picks, ask)[id];
            && Holds(after, ask.worker)
            && after.attempts == js[id].attempts + 1 <= after.maxAttempts
            && after.leaseExpiresAt ==
                 Some((ask.clock + if ask.leaseTime > 0 then ask.leaseTime else 0) / 1_000_000)
  {
    PicksWerePending(js, picks, ask);
  }

  /** A job the caller may not run is handed back as it was after the reap, but for `startedAt`: status,
      attempts, due time, priority and place in line are its own again. A job it did not pick is untouched. */
  lemma ClaimReturnsTheRest(js: Jobs, picks: seq<JobId>, ask: Ask, id: JobId)
    requires Inv(js) && Finished(js, picks, ask) && id in js && id !in Mine(js, picks, ask)
    ensures AfterClaim(js, picks, ask)[id] == js[id].(startedAt := AfterClaim(js, picks, ask)[id].startedAt)
    ensures id !in picks ==> AfterClaim(js, picks, ask)[id] == js[id]
  {
    PicksWerePending(js, picks, ask);
    HandedBackIsAsBefore(js[id], ask);
    hide Finished, Picked, TypeAllowed, Taken, HandedBack, JobInv;
  }

  lemma HandedBackIsAsBefore(job: Job, ask: Ask)
    requires JobInv(job)
    ensures job.status == Pending ==>
              var back := HandedBack(Taken(job, ask.worker, ask.Now(), ask.Lease()));
              back == job.(startedAt := back.startedAt)
  {
  }

  lemma LeftIsClaimable(js: Jobs, picks: seq<JobId>, ask: Ask, id: JobId)
    requires id in Due(js, ask) && id !in picks && LimitOf(js[id]).None?
    ensures var held := Holding(js, picks, ask);
            id in held && Claimable(held, held[id], ask.Now(), ask.types)
  {
  }

  /** What the loop took is its own work and the foreign jobs it holds, and no more of those than are due. */
  lemma TriesAreAccountedFor(js: Jobs, picks: seq<JobId>, ask: Ask)
    requires Finished(js, picks, ask)
    ensures |picks| <= |Mine(js, picks, ask)| + |DueForeign(js, ask)|
    ensures SetOf(Mine(js, picks, ask)) <= DueMatching(js, ask)
    ensures |SetOf(Mine(js, picks, ask))| == |Mine(js, picks, ask)| <= ask.Wanted()
  {
    var mine := Mine(js, picks, ask);
    PicksWerePending(js, picks, ask);
    MineIsBounded(js, picks, ask);
    DistinctSize(mine);
    DistinctSize(picks);
    var foreign := set p | p in picks && ask.Foreign(js[p]);
    assert SetOf(picks) == SetOf(mine) + foreign;
    Included(foreign, DueForeign(js, ask));
  }

  /** A loop that found nothing more to claim has all the work that is its own. */
  lemma NothingLeftIsAll(js: Jobs, picks: seq<JobId>, ask: Ask)
    requires Finished(js, picks, ask) && forall id | id in js :: LimitOf(js[id]).None?
    requires NothingClaimable(Holding(js, picks, ask), ask.Now(), ask.types)
    ensures DueMatching(js, ask) <= SetOf(Mine(js, picks, ask))
  {
    forall id | id in DueMatching(js, ask)
      ensures id in SetOf(Mine(js, picks, ask))
    {
      if id !in picks {
        LeftIsClaimable(js, picks, ask, id);
      }
    }
  }

  lemma LoopReachesItsOwnWork(js: Jobs, picks: seq<JobId>, ask: Ask)
    requires Finished(js, picks, ask)
    requires forall id | id in js :: LimitOf(js[id]).None?
    requires |DueForeign(js, ask)| + ask.Wanted() <= MAX_CLAIM_LIMIT
    ensures |Mine(js, picks, ask)| == Min(ask.Wanted(), |DueMatching(js, ask)|)
  {
    hide Mine, Picked, DueForeign, DueMatching, SetOf, LimitOf, NothingClaimable, Holding;
    var mine := Mine(js, picks, ask);
    TriesAreAccountedFor(js, picks, ask);
    Included(SetOf(mine), DueMatching(js, ask));
    if |mine| < ask.Wanted() {
      NothingLeftIsAll(js, picks, ask);
      assert DueMatching(js, ask) == SetOf(mine);
    }
  }

  /** With no caps in force, a caller that could walk past every foreign job within the bound gets
      exactly what it asked for, at least one and at most 50, or everything there is for it. */
  lemma ClaimReachesItsOwnWork(js: Jobs, picks: seq<JobId>, ask: Ask, wanted: int)
    requires Finished(js, picks, ask)
    requires wanted == if ask.limit < 1 then 1 else if ask.limit > 50 then 50 else ask.limit
    requires forall id | id in js :: LimitOf(js[id]).None?
    requires |DueForeign(js, ask)| + wanted <= MAX_CLAIM_LIMIT
    ensures |Mine(js, picks, ask)| == if wanted <= |DueMatching(js, ask)| then wanted else |DueMatching(js, ask)|
  {
    hide Finished, DueForeign, DueMatching, LimitOf;
    LoopReachesItsOwnWork(js, picks, ask);
  }

  // ---- whose work it is, and whose turn --------------------------------------------

  predicate SaysOther(asked: Option<string>, tag: string, job: Job) {
    asked.Some? && tag in job.metadata && job.metadata[tag] != asked.value
  }

  /** Of the jobs it took, a claim keeps those that carry no tag against it: work without tags is anyone's, and
      a claimer that names neither version nor agent keeps everything. */
  lemma TagsDecide(js: Jobs, picks: seq<JobId>, ask: Ask)
    requires forall id | id in picks :: id in js
    ensures forall id :: id in Mine(js, picks, ask) <==>
              id in picks && !SaysOther(ask.version, "versionId", js[id]) && !SaysOther(ask.agent, "agent", js[id])
    ensures ask.version.None? && ask.agent.None? ==> Mine(js, picks, ask) == picks
    ensures (forall id | id in picks :: "versionId" !in js[id].metadata && "agent" !in js[id].metadata) ==>
              Mine(js, picks, ask) == picks
  {
    if (forall id | id in picks :: !ask.Foreign(js[id])) {
      AllAreMine(js, picks, ask);
    }
  }

  lemma {:induction false} AllAreMine(js: Jobs, picks: seq<JobId>, ask: Ask)
    requires forall id | id in picks :: id in js && !ask.Foreign(js[id])
    ensures Mine(js, picks, ask) == picks
  {
    if picks != [] {
      AllAreMine(js, picks[..|picks| - 1], ask);
    }
  }

  /** The job is waiting, due, of a type that was asked for, and its key has room under its cap. */
  predicate Waiting(js: Jobs, job: Job, now: Stamp, types: Option<seq<string>>) {
    && job.status == Pending && job.runAt <= now
    && (types.Some? && types.value != [] ==> job.kind in types.value)
    && (Truthy(job.concurrencyKey) && job.concurrencyLimit.Some? && job.concurrencyLimit.value != 0 ==>
          Load(js, job) < job.concurrencyLimit.value)
  }

  /** How many jobs run under the job's key; none for a job without one. */
  function Load(js: Jobs, job: Job): nat {
    if !Truthy(job.concurrencyKey) then 0
    else |set id | id in js && js[id].status == Running && js[id].concurrencyKey == job.concurrencyKey|
  }

  lemma LoadIsBusy(js: Jobs, job: Job)
    ensures Load(js, job) == Busy(js, job)
  {
    if Truthy(job.concurrencyKey) {
      assert (set id | id in js && js[id].status == Running && js[id].concurrencyKey == job.concurrencyKey)
             == RunningIds(js, job.concurrencyKey.value);
    }
  }

  /** The job a claim takes is waiting, and no waiting job has been passed over for it: not one whose key has
      fewer jobs running, and among equals not one of higher priority, then due earlier, then enqueued earlier. */
  lemma NobodyIsPassedOver(js: Jobs, id: JobId, now: Stamp, types: Option<seq<string>>, other: JobId)
    requires Best(js, id, now, types) && other in js && Waiting(js, js[other], now, types)
    ensures Waiting(js, js[id], now, types)
    ensures Load(js, js[id]) <= Load(js, js[other])
    ensures Load(js, js[id]) == Load(js, js[other]) ==> js[id].priority >= js[other].priority
    ensures Load(js, js[id]) == Load(js, js[other]) && js[id].priority == js[other].priority ==>
              js[id].runAt < js[other].runAt
              || (js[id].runAt == js[other].runAt && js[id].seqNo <= js[other].seqNo)
  {
    LoadIsBusy(js, js[id]);
    LoadIsBusy(js, js[other]);
    assert Claimable(js, js[other], now, types);
  }

  /** ... and nothing is left waiting when a claim finds nothing. */
  lemma NothingWaits(js: Jobs, now: Stamp, types: Option<seq<string>>)
    ensures NothingClaimable(js, now, types) <==> forall id | id in js :: !Waiting(js, js[id], now, types)
  {
    forall id | id in js
      ensures Claimable(js, js[id], now, types) <==> Waiting(js, js[id], now, types)
    {
      LoadIsBusy(js, js[id]);
    }
  }

  // ---- caps ------------------------------------------------------------------------

  /** Every job under the key carries the same cap. */
  ghost predicate SharesLimit(js: Jobs, key: string, limit: int) {
    forall id | id in js && KeyOf(js[id]) == Some(key) :: LimitOf(js[id]) == Some(limit)
  }

  /** ... because every request for that key asked for it. */
  ghost predicate AsksForLimit(calls: seq<Call>, key: string, limit: int) {
    forall i | 0 <= i < |calls| && calls[i].EnqueueCall? && calls[i].req.concurrencyKey == Some(key) ::
      calls[i].req.concurrencyLimit == Some(limit)
  }

  lemma {:induction false} LimitIsShared(states: seq<Jobs>, calls: seq<Call>, n: nat, key: string, limit: int)
    requires Run(states, calls) && n < |states| && limit >= 1 && AsksForLimit(calls, key, limit)
    ensures SharesLimit(states[n], key, limit)
  {
    if n > 0 {
      LimitIsShared(states, calls, n - 1, key, limit);
      RunKeepsInv(states, calls, n - 1);
      var js, call := states[n - 1], calls[n - 1];
      forall id | id in states[n] && KeyOf(states[n][id]) == Some(key)
        ensures LimitOf(states[n][id]) == Some(limit)
      {
        if id in js {
          NextIsJobNext(js, call, id);
          CapIsKept(js[id], call);
        } else {
          NewJobsAreFresh(js, call, id);
        }
      }
    }
  }

  lemma KeyIsKept(job: Job, call: Call)
    ensures JobNext(job, call).concurrencyKey == job.concurrencyKey
  {
    if call.ClaimCall? {
      assert Reaped(job, call.ask.Now()).concurrencyKey == job.concurrencyKey;
      hide Reaped;
    } else {
      hide Backoff, RetryDelay, Truncated, Iso, IsoPlus;
    }
  }

  lemma LimitIsKept(job: Job, call: Call)
    ensures JobNext(job, call).concurrencyLimit == job.concurrencyLimit
  {
    if call.ClaimCall? {
      assert Reaped(job, call.ask.Now()).concurrencyLimit == job.concurrencyLimit;
      hide Reaped;
    } else {
      hide Backoff, RetryDelay, Truncated, Iso, IsoPlus;
    }
  }

  lemma CapIsKept(job: Job, call: Call)
    ensures KeyOf(JobNext(job, call)) == KeyOf(job) && LimitOf(JobNext(job, call)) == LimitOf(job)
  {
    hide JobNext;
    KeyIsKept(job, call);
    LimitIsKept(job, call);
  }

  /** Every pick of the loop respects the cap, counting the jobs it holds for others. */
  lemma {:induction false} CapInsideClaim(js: Jobs, picks: seq<JobId>, ask: Ask, key: string, limit: int)
    requires Picked(js, picks, ask) && forall p | p in picks :: p in js
    requires SharesLimit(js, key, limit) && |RunningIds(js, key)| <= limit
    ensures |RunningIds(Holding(js, picks, ask), key)| <= limit
  {
    hide Best, RunningIds, SharesLimit, Claimable;
    if picks == [] {
      assert Holding(js, picks, ask) == js;
    } else {
      var before, id := picks[..|picks| - 1], picks[|picks| - 1];
      CapInsideClaim(js, before, ask, key, limit);
      CapAfterPick(js, before, id, ask, key, limit);
      assert picks == before + [id];
    }
  }

  lemma CapAfterPick(js: Jobs, before: seq<JobId>, id: JobId, ask: Ask, key: string, limit: int)
    requires forall p | p in before :: p in js
    requires Best(Holding(js, before, ask), id, ask.Now(), ask.types)
    requires SharesLimit(js, key, limit) && |RunningIds(Holding(js, before, ask), key)| <= limit
    ensures |RunningIds(Holding(js, before + [id], ask), key)| <= limit
  {
    var held, more := Holding(js, before, ask), Holding(js, before + [id], ask);
    assert held[id] == js[id];
    forall other | other in RunningIds(more, key) && other != id ensures other in RunningIds(held, key) {
      assert more[other] == held[other];
    }
    if KeyOf(js[id]) == Some(key) {
      assert Busy(held, held[id]) < limit;
      Included(RunningIds(more, key), RunningIds(held, key) + {id});
    } else {
      assert KeyOf(more[id]) == KeyOf(js[id]) by {
        assert more[id].concurrencyKey == js[id].concurrencyKey;
      }
      Included(RunningIds(more, key), RunningIds(held, key));
    }
  }

  lemma RunningAfterCall(js: Jobs, call: Call, key: string)
    requires Inv(js) && Possible(js, call) && !call.ClaimCall?
    ensures RunningIds(Next(js, call), key) <= RunningIds(js, key)
  {
    forall id | id in RunningIds(Next(js, call), key) ensures id in RunningIds(js, key) {
      if id in js {
        NextIsJobNext(js, call, id);
        CapIsKept(js[id], call);
      } else {
        NewJobsAreFresh(js, call, id);
      }
    }
  }

  lemma RunningAroundClaim(js: Jobs, picks: seq<JobId>, ask: Ask, key: string)
    ensures RunningIds(Reap(js, ask.Now()), key) <= RunningIds(js, key)
    ensures RunningIds(AfterClaim(js, picks, ask), key) <= RunningIds(Holding(js, picks, ask), key)
  {
    forall id | id in RunningIds(Reap(js, ask.Now()), key) ensures id in RunningIds(js, key) {
      assert Reaped(js[id], ask.Now()).concurrencyKey == js[id].concurrencyKey;
    }
    forall id | id in RunningIds(AfterClaim(js, picks, ask), key)
      ensures id in RunningIds(Holding(js, picks, ask), key)
    {
    }
  }

  /** Inside a claim that starts within the cap, every pick stays within it. */
  lemma CapInsideStep(states: seq<Jobs>, calls: seq<Call>, n: nat, k: nat, key: string, limit: int)
    requires Run(states, calls) && n < |calls| && limit >= 1 && AsksForLimit(calls, key, limit)
    requires |RunningIds(states[n], key)| <= limit
    requires calls[n].ClaimCall? && k <= |calls[n].picks| && calls[n].ask.worker != ""
    ensures var reaped := Reap(states[n], calls[n].ask.Now());
            |RunningIds(Holding(reaped, calls[n].picks[..k], calls[n].ask), key)| <= limit
  {
    var ask, picks := calls[n].ask, calls[n].picks;
    var reaped := Reap(states[n], ask.Now());
    LimitIsShared(states, calls, n, key, limit);
    ReapKeepsLimit(states[n], ask.Now(), key, limit);
    RunningAroundClaim(states[n], picks, ask, key);
    Included(RunningIds(reaped, key), RunningIds(states[n], key));
    PrefixPicked(reaped, picks, ask, k);
    CapInsideClaim(reaped, picks[..k], ask, key, limit);
  }

  /** The cap over a whole run: at every state no more than `limit` jobs of the key are running. */
  lemma {:induction false} CapHolds(states: seq<Jobs>, calls: seq<Call>, n: nat, key: string, limit: int)
    requires Run(states, calls) && n < |states| && limit >= 1 && AsksForLimit(calls, key, limit)
    ensures |RunningIds(states[n], key)| <= limit
  {
    if n > 0 {
      var js, call := states[n - 1], calls[n - 1];
      CapHolds(states, calls, n - 1, key, limit);
      RunKeepsInv(states, calls, n - 1);
      if call.ClaimCall? {
        if call.ask.worker != "" {
          CapInsideStep(states, calls, n - 1, |call.picks|, key, limit);
          var reaped := Reap(js, call.ask.Now());
          assert call.picks[..|call.picks|] == call.picks;
          RunningAroundClaim(reaped, call.picks, call.ask, key);
          Included(RunningIds(states[n], key), RunningIds(Holding(reaped, call.picks, call.ask), key));
        }
      } else {
        RunningAfterCall(js, call, key);
        Included(RunningIds(states[n], key), RunningIds(js, key));
      }
    }
  }

  /** ... and at every moment inside a claim, the jobs it will hand back included. */
  lemma CapHoldsInside(states: seq<Jobs>, calls: seq<Call>, n: nat, k: nat, key: string, limit: int)
    requires Run(states, calls) && n < |calls| && limit >= 1 && AsksForLimit(calls, key, limit)
    requires calls[n].ClaimCall? && k <= |calls[n].picks| && calls[n].ask.worker != ""
    ensures var reaped := Reap(states[n], calls[n].ask.Now());
            |RunningIds(Holding(reaped, calls[n].picks[..k], calls[n].ask), key)| <= limit
  {
    CapHolds(states, calls, n, key, limit);
    CapInsideStep(states, calls, n, k, key, limit);
  }

  lemma ReapKeepsLimit(js: Jobs, now: Stamp, key: string, limit: int)
    requires SharesLimit(js, key, limit)
    ensures SharesLimit(Reap(js, now), key, limit)
  {
    forall id | id in js
      ensures KeyOf(Reaped(js[id], now)) == KeyOf(js[id]) && LimitOf(Reaped(js[id], now)) == LimitOf(js[id])
    {
      assert Reaped(js[id], now).concurrencyKey == js[id].concurrencyKey;
      assert Reaped(js[id], now).concurrencyLimit == js[id].concurrencyLimit;
    }
  }

  lemma {:induction false} PrefixPicked(js: Jobs, picks: seq<JobId>, ask: Ask, k: nat)
    requires Picked(js, picks, ask) && (forall p | p in picks :: p in js) && k <= |picks|
    ensures Picked(js, picks[..k], ask)
  {
    if k == |picks| {
      assert picks[..k] == picks;
    } else {
      var before := picks[..|picks| - 1];
      PrefixPicked(js, before, ask, k);
      assert before[..k] == picks[..k];
    }
  }
}
