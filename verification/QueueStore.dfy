/** The queue directory of the file store: one document a job, read and rewritten in place. */
module QueueStore {
  import opened Outcomes
  import opened StableSort
  import opened QueueJobs
  import Quotas

  /** Every document is filed under its own id. */
  ghost predicate Filed(js: Jobs) {
    forall id | id in js :: js[id].id == id
  }

  /** A listing holds exactly the jobs of one status (or of any), each once, in list order. */
  ghost predicate Listing(js: Jobs, status: Option<Status>, out: seq<Job>) {
    && Sorted(out, ListLe)
    && (forall i, j | 0 <= i < j < |out| :: out[i].id != out[j].id)
    && (forall job | job in out :: job.id in js && js[job.id] == job && (status.Some? ==> job.status == status.value))
    && (forall id | id in js && (status.Some? ==> js[id].status == status.value) :: js[id] in out)
  }

  lemma ListOrder()
    ensures TotalPreorder(ListLe)
  {
  }

  /** A stable sort of a list without repeats is a listing. */
  lemma SortedListing(js: Jobs, status: Option<Status>, found: seq<Job>)
    requires forall i, j | 0 <= i < j < |found| :: found[i].id != found[j].id
    requires forall job | job in found :: job.id in js && js[job.id] == job && (status.Some? ==>
              job.status == status.value)
    requires forall id | id in js && (status.Some? ==> js[id].status == status.value) :: js[id] in found
    ensures Listing(js, status, Sort(found, ListLe))
  {
    var out := Sort(found, ListLe);
    ListOrder();
    SortSorts(found, ListLe);
    SortMembers(found, ListLe);
    SortPermutes(found, ListLe);
    forall i, j | 0 <= i < j < |out| ensures out[i].id != out[j].id {
      if out[i].id == out[j].id {
        assert out[i] == out[j] by {
          assert out[i] in found && out[j] in found;
        }
        TwiceInList(out, i, j);
        OnceInList(found, out[i]);
        assert false;
      }
    }
  }

  lemma TwiceInList(s: seq<Job>, i: nat, j: nat)
    requires i < j < |s| && s[i] == s[j]
    ensures multiset(s)[s[i]] >= 2
  {
    assert s == s[..i] + [s[i]] + s[i + 1..j] + [s[j]] + s[j + 1..];
  }

  lemma {:induction false} OnceInList(s: seq<Job>, job: Job)
    requires forall i, j | 0 <= i < j < |s| :: s[i].id != s[j].id
    ensures multiset(s)[job] <= 1
  {
    if s == [] {
    } else {
      assert s == [s[0]] + s[1..];
      OnceInList(s[1..], job);
      if s[0] == job {
        assert job !in s[1..];
        assert multiset(s[1..])[job] == 0;
      }
    }
  }

  class Directory {
    var jobs: Jobs
    /** What admission reads: policy, lifecycle, meter, organization verdict. */
    var facts: Quotas.Facts

    ghost predicate Valid()
      reads this
    {
      Filed(jobs)
    }

    constructor (facts: Quotas.Facts)
      ensures Valid() && jobs == map[] && this.facts == facts
    {
      this.jobs := map[];
      this.facts := facts;
    }

    method Save(job: Job)
      requires Valid()
      modifies this`jobs
      ensures Valid() && jobs == old(jobs)[job.id := job]
    {
      jobs := jobs[job.id := job];
    }

    method Get(id: JobId) returns (r: Option<Job>)
      ensures r == if id in jobs then Some(jobs[id]) else None
    {
      r := if id in jobs then Some(jobs[id]) else None;
    }

    /** The documents come back from the directory in any order, and are then sorted. */
    method List(status: Option<Status>) returns (out: seq<Job>)
      requires Valid()
      ensures Listing(jobs, status, out)
    {
      var todo := jobs.Keys;
      var found: seq<Job> := [];
      while todo != {}
        invariant todo <= jobs.Keys
        invariant forall i, j | 0 <= i < j < |found| :: found[i].id != found[j].id
        invariant forall job | job in found ::
          job.id in jobs && jobs[job.id] == job && job.id !in todo && (status.Some? ==> job.status == status.value)
        invariant forall id | id in jobs && id !in todo && (status.Some? ==>
          jobs[id].status == status.value) :: jobs[id] in found
      {
        var id :| id in todo;
        todo := todo - {id};
        if status.None? || jobs[id].status == status.value {
          found := found + [jobs[id]];
        }
      }
      SortedListing(jobs, status, found);
      out := Sort(found, ListLe);
    }

    method CountPending() returns (n: nat)
      ensures n == PendingCount(jobs)
    {
      n := |set id | id in jobs && jobs[id].status == Pending|;
    }

    static method ExpireLease(running: Job, now: Stamp) returns (job: Job)
      requires Expired(running, now)
      ensures job == Reaped(running, now)
    {
      job := running.(workerId := None, leaseExpiresAt := None);
      if job.attempts >= job.maxAttempts {
        var error := if Truthy(job.error) then job.error.value else LEASE_EXPIRED;
        job := job.(status := Failed, deadLetter := true, error := Some(error), completedAt := Some(now));
      } else {
        job := job.(status := Pending, lastError := Some(LEASE_EXPIRED), runAt := now);
      }
    }

    /** Return expired-lease jobs to the queue, or dead-letter the exhausted ones. */
    method ReapExpired(now: Stamp)
      requires Valid()
      modifies this`jobs
      ensures Valid() && jobs == Reap(old(jobs), now)
    {
      var running := List(Some(Running));
      ghost var before := jobs;
      for i := 0 to |running|
        invariant jobs == PartlyReaped(before, IdsOf(running[..i]), now)
      {
        var job := running[i];
        ReapNext(before, running, i, now);
        if job.leaseExpiresAt.Some? && job.leaseExpiresAt.value <= now {
          job := ExpireLease(job, now);
          Save(job);
        }
      }
      AllReaped(before, running, now);
    }

    /** How many jobs run under each key. */
    method CountRunning() returns (running: map<string, nat>)
      requires Valid()
      ensures forall job: Job :: Tally(running, job) == Busy(jobs, job)
    {
      var list := List(Some(Running));
      running := map[];
      for i := 0 to |list|
        invariant forall key :: Count(running, key) == |Under(list[..i], key)|
        invariant "" !in running
      {
        var key := KeyOf(list[i]);
        UnderGrows(list, i);
        if key.Some? {
          running := running[key.value := Count(running, key.value) + 1];
        }
      }
      forall key ensures Under(list[..|list|], key) == RunningIds(jobs, key) {
        forall id | id in RunningIds(jobs, key) ensures id in Under(list[..|list|], key) {
          assert jobs[id] in list[..|list|];
        }
      }
    }

    method TakeJob(pending: Job, worker: WorkerId, now: Stamp, lease: Stamp) returns (job: Job)
      requires Valid()
      modifies this`jobs
      ensures Valid()
      ensures job == Taken(pending, worker, now, lease)
      ensures jobs == old(jobs)[pending.id := job]
    {
      job := pending;
      job := job.(status := Running, workerId := Some(worker), leaseExpiresAt := Some(lease),
                  attempts := job.attempts + 1, startedAt := if job.startedAt.Some? then job.startedAt else Some(now));
      Save(job);
    }

    /** Claim the job that deserves the next slot, if there is one. */
    method ClaimOne(worker: WorkerId, now: Stamp, lease: Stamp, types: Option<seq<string>>) returns (r: Option<Job>)
      requires Valid()
      modifies this`jobs
      ensures Valid()
      ensures r.None? ==> jobs == old(jobs) && NothingClaimable(jobs, now, types)
      ensures r.Some? ==> Best(old(jobs), r.value.id, now, types)
      ensures r.Some? ==> r.value == Taken(old(jobs)[r.value.id], worker, now, lease)
      ensures r.Some? ==> jobs == old(jobs)[r.value.id := r.value]
    {
      hide RankLe, ListLe, Best, NothingClaimable, Claimable, Busy, TypeAllowed, LimitOf;
      var running := CountRunning();
      var pending := List(Some(Pending));
      var order := Sort(pending, (a: Job, b: Job) => Tally(running, a) <= Tally(running, b));
      FairOrder(jobs, running, pending);
      for i := 0 to |order|
        invariant jobs == old(jobs)
        invariant forall k | 0 <= k < i :: !Claimable(jobs, order[k], now, types)
      {
        var job := order[i];
        assert job in order;
        FitsExactly(jobs, job, running, now, types);
        if !TypeAllowed(types, job) || job.runAt > now {
          continue;
        }
        if KeyOf(job).Some? && LimitOf(job).Some? && Tally(running, job) >= LimitOf(job).value {
          continue;
        }
        FirstFitIsBest(jobs, order, i, now, types);
        job := TakeJob(job, worker, now, lease);
        return Some(job);
      }
      NoneFits(jobs, order, now, types);
      r := None;
    }
  }

  /** What the scan asks of a pending job is what makes it claimable. */
  lemma FitsExactly(js: Jobs, job: Job, running: map<string, nat>, now: Stamp, types: Option<seq<string>>)
    requires job.status == Pending && Tally(running, job) == Busy(js, job)
    ensures Claimable(js, job, now, types) <==>
            && TypeAllowed(types, job) && job.runAt <= now
            && !(KeyOf(job).Some? && LimitOf(job).Some? && Tally(running, job) >= LimitOf(job).value)
  {
  }

  /** The pending jobs, least busy key first and in list order under that. */
  ghost predicate InFairOrder(js: Jobs, order: seq<Job>) {
    && (forall i, j | 0 <= i < j < |order| :: RankLe(js, order[i], order[j]))
    && (forall job | job in order :: job.id in js && js[job.id] == job && job.status == Pending)
    && (forall id | id in js && js[id].status == Pending :: js[id] in order)
  }

  /** The stable sort by running count alone puts a listing in that order. */
  lemma FairOrder(js: Jobs, running: map<string, nat>, pending: seq<Job>)
    requires Listing(js, Some(Pending), pending)
    requires forall job: Job :: Tally(running, job) == Busy(js, job)
    ensures InFairOrder(js, Sort(pending, (a: Job, b: Job) => Tally(running, a) <= Tally(running, b)))
  {
    hide Tally, Busy;
    var fairLe := (a: Job, b: Job) => Tally(running, a) <= Tally(running, b);
    SortIsStable(pending, fairLe, ListLe);
    SortMembers(pending, fairLe);
    var order := Sort(pending, fairLe);
    forall i, j | 0 <= i < j < |order|
      ensures RankLe(js, order[i], order[j])
    {
      assert fairLe(order[i], order[j]) && (fairLe(order[j], order[i]) ==> ListLe(order[i], order[j]));
    }
  }

  lemma FirstFitIsBest(js: Jobs, order: seq<Job>, i: nat, now: Stamp, types: Option<seq<string>>)
    requires Filed(js) && InFairOrder(js, order) && i < |order|
    requires Claimable(js, order[i], now, types) && forall k | 0 <= k < i :: !Claimable(js, order[k], now, types)
    ensures Best(js, order[i].id, now, types)
  {
    hide Busy, Claimable, ListLe;
    assert order[i] in order;
    forall other | other in js && Claimable(js, js[other], now, types)
      ensures RankLe(js, order[i], js[other])
    {
      ClaimablePends(js, js[other], now, types);
      var k :| 0 <= k < |order| && order[k] == js[other];
      if k == i {
        RankSame(js, order[i]);
      }
    }
  }

  lemma ClaimablePends(js: Jobs, job: Job, now: Stamp, types: Option<seq<string>>)
    requires Claimable(js, job, now, types)
    ensures job.status == Pending
  {
  }

  lemma RankSame(js: Jobs, job: Job)
    ensures RankLe(js, job, job)
  {
  }

  lemma NoneFits(js: Jobs, order: seq<Job>, now: Stamp, types: Option<seq<string>>)
    requires InFairOrder(js, order) && forall k | 0 <= k < |order| :: !Claimable(js, order[k], now, types)
    ensures NothingClaimable(js, now, types)
  {
    forall id | id in js
      ensures !Claimable(js, js[id], now, types)
    {
      if js[id].status == Pending {
        assert js[id] in order;
      }
    }
  }

  function PendingCount(js: Jobs): nat {
    |set id | id in js && js[id].status == Pending|
  }

  function IdsOf(jobs: seq<Job>): set<JobId> {
    set job | job in jobs :: job.id
  }

  /** The directory once the jobs in `done` have been looked at. */
  function PartlyReaped(js: Jobs, done: set<JobId>, now: Stamp): Jobs {
    map id | id in js :: if id in done then Reaped(js[id], now) else js[id]
  }

  lemma ReapNext(js: Jobs, running: seq<Job>, i: nat, now: Stamp)
    requires Filed(js) && Listing(js, Some(Running), running) && i < |running|
    ensures running[i].id in js && js[running[i].id] == running[i] && running[i].status == Running
    ensures PartlyReaped(js, IdsOf(running[..i + 1]), now) ==
            PartlyReaped(js, IdsOf(running[..i]), now)[running[i].id := Reaped(running[i], now)]
    ensures PartlyReaped(js, IdsOf(running[..i]), now)[running[i].id] == running[i]
    ensures Filed(PartlyReaped(js, IdsOf(running[..i]), now))
  {
    assert running[i] in running;
    assert IdsOf(running[..i + 1]) == IdsOf(running[..i]) + {running[i].id} by {
      assert running[..i + 1] == running[..i] + [running[i]];
    }
  }

  lemma AllReaped(js: Jobs, running: seq<Job>, now: Stamp)
    requires Filed(js) && Listing(js, Some(Running), running)
    ensures PartlyReaped(js, IdsOf(running[..|running|]), now) == Reap(js, now)
    ensures Filed(Reap(js, now))
  {
    forall id | id in js && js[id].status == Running ensures id in IdsOf(running[..|running|]) {
      assert js[id] in running[..|running|];
    }
  }

  function Count(running: map<string, nat>, key: string): nat {
    if key in running then running[key] else 0
  }

  function Tally(running: map<string, nat>, job: Job): nat {
    Count(running, if job.concurrencyKey.Some? then job.concurrencyKey.value else "")
  }

  /** The listed jobs counted under a key. */
  function Under(list: seq<Job>, key: string): set<JobId> {
    set job | job in list && KeyOf(job) == Some(key) :: job.id
  }

  lemma UnderGrows(list: seq<Job>, i: nat)
    requires i < |list|
    requires forall j, k | 0 <= j < k < |list| :: list[j].id != list[k].id
    ensures forall key :: |Under(list[..i + 1], key)| == |Under(list[..i], key)| + if KeyOf(list[i]) ==
            Some(key) then 1 else 0
  {
    forall key
      ensures |Under(list[..i + 1], key)| == |Under(list[..i], key)| + if KeyOf(list[i]) == Some(key) then 1 else 0
    {
      UnderNext(list[..i], list[i], key);
      assert list[..i + 1] == list[..i] + [list[i]];
    }
  }

  lemma UnderNext(before: seq<Job>, job: Job, key: string)
    requires forall other | other in before :: other.id != job.id
    ensures |Under(before + [job], key)| == |Under(before, key)| + if KeyOf(job) == Some(key) then 1 else 0
  {
    hide KeyOf;
    if KeyOf(job) == Some(key) {
      assert Under(before + [job], key) == Under(before, key) + {job.id};
    } else {
      assert Under(before + [job], key) == Under(before, key);
    }
  }
}
