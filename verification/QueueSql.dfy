/** The same steps as single SQL statements, and that they are the same steps.

    A row carries its job document and, as columns, the fields the statements test; the columns are
    written together with the document, so one record stands for both. */
module QueueSql {
  import opened Outcomes
  import opened Decimals
  import opened QueueJobs
  import QueueRuns
  import Sets

  const INT4_MAX := 2147483647

  // ---- reap: two conditional updates -----------------------------------------------

  predicate LeaseUp(job: Job, now: Stamp) {
    job.status == Running && job.leaseExpiresAt.Some? && job.leaseExpiresAt.value <= now
  }

  /** UPDATE ... SET status = 'pending' WHERE the lease is up and attempts remain. */
  function UpdateRetryable(js: Jobs, now: Stamp): Jobs {
    map id | id in js ::
      if LeaseUp(js[id], now) && js[id].attempts < js[id].maxAttempts then
        js[id].(status := Pending, workerId := None, leaseExpiresAt := None, runAt := now,
                lastError := Some(LEASE_EXPIRED))
      else js[id]
  }

  /** UPDATE ... SET status = 'failed' WHERE the lease is up and none remain. */
  function UpdateExhausted(js: Jobs, now: Stamp): Jobs {
    map id | id in js ::
      if LeaseUp(js[id], now) && js[id].attempts >= js[id].maxAttempts then
        js[id].(status := Failed, workerId := None, leaseExpiresAt := None, deadLetter := true,
                completedAt := Some(now),
                error := if js[id].error.Some? then js[id].error else Some(LEASE_EXPIRED))
      else js[id]
  }

  function SqlReap(js: Jobs, now: Stamp): Jobs {
    UpdateExhausted(UpdateRetryable(js, now), now)
  }

  /** The two statements, one after the other, do what the loop over the directory does. */
  lemma SqlReapIsReap(js: Jobs, now: Stamp)
    requires QueueRuns.Inv(js)
    ensures SqlReap(js, now) == Reap(js, now)
  {
    forall id | id in js ensures SqlReap(js, now)[id] == Reap(js, now)[id] {
      var job := js[id];
      if LeaseUp(job, now) && job.attempts < job.maxAttempts {
        assert UpdateRetryable(js, now)[id].status == Pending;
      } else {
        assert UpdateRetryable(js, now)[id] == job;
      }
    }
  }

  // ---- claim: one statement --------------------------------------------------------

  function SqlRunning(js: Jobs, key: string): set<JobId> {
    set id | id in js && js[id].status == Running && js[id].concurrencyKey == Some(key)
  }

  /** COALESCE(r.n, 0) of the left join: a NULL key joins nothing. */
  function SqlBusy(js: Jobs, job: Job): nat {
    if job.concurrencyKey.Some? then |SqlRunning(js, job.concurrencyKey.value)| else 0
  }

  function SqlLimit(job: Job): int {
    if LimitOf(job).Some? then LimitOf(job).value else INT4_MAX
  }

  predicate SqlTypeAllowed(types: Option<seq<string>>, job: Job) {
    types.None? || job.kind in types.value
  }

  predicate SqlClaimable(js: Jobs, job: Job, now: Stamp, types: Option<seq<string>>) {
    && job.status == Pending
    && job.runAt <= now
    && SqlTypeAllowed(types, job)
    && (job.concurrencyKey.None? || SqlBusy(js, job) < SqlLimit(job))
  }

  /** ORDER BY COALESCE(r.n, 0), priority DESC, run_at, (data->>'seq'): the last one as text. */
  predicate SqlRankLe(js: Jobs, a: Job, b: Job) {
    || SqlBusy(js, a) < SqlBusy(js, b)
    || (SqlBusy(js, a) == SqlBusy(js, b) &&
        (|| a.priority > b.priority
         || (a.priority == b.priority &&
             (|| a.runAt < b.runAt
              || (a.runAt == b.runAt && TextLe(Decimal(a.seqNo), Decimal(b.seqNo)))))))
  }

  ghost predicate SqlBest(js: Jobs, id: JobId, now: Stamp, types: Option<seq<string>>) {
    && id in js
    && SqlClaimable(js, js[id], now, types)
    && forall other | other in js && SqlClaimable(js, js[other], now, types) :: SqlRankLe(js, js[id], js[other])
  }

  /** Nothing but the arrival numbers can tell the two jobs apart. */
  predicate Tied(js: Jobs, a: Job, b: Job) {
    Busy(js, a) == Busy(js, b) && a.priority == b.priority && a.runAt == b.runAt
  }

  /** What keeps the two forms in step: no empty key, arrival numbers that compare alike wherever they
      decide, and fewer jobs than the number that stands for "no cap". */
  ghost predicate Comparable(js: Jobs) {
    && (forall id | id in js :: js[id].concurrencyKey != Some(""))
    && (forall a, b | a in js && b in js && Tied(js, js[a], js[b]) :: !LeadsBehind(js[a].seqNo, js[b].seqNo))
    && |js| < INT4_MAX
  }

  lemma BusyAgrees(js: Jobs, job: Job)
    requires job.concurrencyKey != Some("")
    ensures SqlBusy(js, job) == Busy(js, job)
  {
    if job.concurrencyKey.Some? {
      assert SqlRunning(js, job.concurrencyKey.value) == RunningIds(js, job.concurrencyKey.value);
    }
  }

  lemma ClaimableAgrees(js: Jobs, id: JobId, now: Stamp, types: Option<seq<string>>)
    requires Comparable(js) && types != Some([]) && id in js
    ensures SqlClaimable(js, js[id], now, types) <==> Claimable(js, js[id], now, types)
  {
    BusyAgrees(js, js[id]);
    if js[id].concurrencyKey.Some? {
      var key := js[id].concurrencyKey.value;
      assert SqlRunning(js, key) <= js.Keys;
      Sets.Included(SqlRunning(js, key), js.Keys);
    }
  }

  /** The two orders agree on two jobs exactly when they are not tied down to their arrival numbers, or
      the wider of the two numbers does not begin with a number less than the narrower one. */
  lemma RankAgreesExactly(js: Jobs, a: Job, b: Job)
    requires a.concurrencyKey != Some("") && b.concurrencyKey != Some("")
    ensures (SqlRankLe(js, a, b) <==> RankLe(js, a, b)) <==>
            !(Tied(js, a, b) && (LeadsBehind(a.seqNo, b.seqNo) || LeadsBehind(b.seqNo, a.seqNo)))
  {
    BusyAgrees(js, a);
    BusyAgrees(js, b);
    TextComparesExactly(a.seqNo, b.seqNo);
    hide SqlBusy, Busy, LeadsBehind, TextLe, Decimal;
  }

  /** The statement may pick a job exactly when the sorted scan of the directory may. */
  lemma SqlPicksTheSameJob(js: Jobs, id: JobId, now: Stamp, types: Option<seq<string>>)
    requires Comparable(js) && types != Some([])
    ensures SqlBest(js, id, now, types) <==> Best(js, id, now, types)
  {
    forall other | other in js
      ensures SqlClaimable(js, js[other], now, types) <==> Claimable(js, js[other], now, types)
    {
      ClaimableAgrees(js, other, now, types);
    }
    if id in js {
      forall other | other in js
        ensures SqlRankLe(js, js[id], js[other]) <==> RankLe(js, js[id], js[other])
      {
        RankAgreesExactly(js, js[id], js[other]);
      }
    }
  }

  /** With arrival numbers all different the choice is unique, so both forms make the same one. */
  lemma ChoiceIsUnique(js: Jobs, a: JobId, b: JobId, now: Stamp, types: Option<seq<string>>)
    requires Best(js, a, now, types) && Best(js, b, now, types)
    requires forall i, j | i in js && j in js && i != j :: js[i].seqNo != js[j].seqNo
    ensures a == b
  {
    assert RankLe(js, js[a], js[b]) && RankLe(js, js[b], js[a]);
  }

  // ---- where they part -------------------------------------------------------------

  /** An empty list of types claims anything from the directory and nothing from the table; every
      other list means the same to both. */
  lemma TypeFilterAgrees(types: Option<seq<string>>)
    ensures (forall job: Job :: SqlTypeAllowed(types, job) <==> TypeAllowed(types, job)) <==> types != Some([])
  {
    if types == Some([]) {
      var job := Sample("a", None, 0);
      assert TypeAllowed(types, job) && !SqlTypeAllowed(types, job);
    }
  }

  /** Only the table counts the jobs under an empty key. */
  lemma BusyAgreesExactly(job: Job)
    ensures (forall js: Jobs :: SqlBusy(js, job) == Busy(js, job)) <==> job.concurrencyKey != Some("")
  {
    if job.concurrencyKey == Some("") {
      var other := Sample("a", Some(""), 0).(status := Running);
      var js: Jobs := map["a" := other];
      assert "a" in SqlRunning(js, "");
      assert SqlBusy(js, job) != Busy(js, job);
    } else {
      forall js: Jobs ensures SqlBusy(js, job) == Busy(js, job) {
        BusyAgrees(js, job);
      }
    }
  }

  /** Arrival numbers of different width can swap: as text, "10" comes before "9". */
  lemma WidthMatters()
    ensures var early, late := Sample("early", None, 9), Sample("late", None, 10);
            var js: Jobs := map["early" := early, "late" := late];
            Best(js, "early", 0, None) && SqlBest(js, "late", 0, None) && !SqlBest(js, "early", 0, None)
  {
    assert Decimal(9) == "9";
    assert Decimal(10) == Decimal(1) + "0" == "10";
    var early, late := Sample("early", None, 9), Sample("late", None, 10);
    assert !TextLe("9", "10");
    assert TextLe("10", "9");
    var js: Jobs := map["early" := early, "late" := late];
    assert SqlClaimable(js, js["late"], 0, None);
  }

  function Sample(id: JobId, key: Option<string>, seqNo: nat): Job {
    Job(id, "t", "", Pending, 0, 1, 0, 0, seqNo, map[], key, None, None, None, None, false, false,
        None, None, None, 0, None, None)
  }
}
