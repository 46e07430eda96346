/** Enqueueing a batch: admitted or refused as a unit. */
module QueueBatch {
  import opened Outcomes
  import opened QueueJobs
  import opened QueueStore
  import Quotas
  import Queue
  import Sets

  /** One item, with the id and the arrival number generated for it. */
  datatype Item = Item(req: Request, newId: JobId, seqNo: nat)

  /** The items one after the other, each with its own admission; the first refusal ends the batch. */
  function EnqueueItems(js: Jobs, facts: Quotas.Facts, items: seq<Item>, clock: int): (Jobs, Result<seq<Job>>) {
    if items == [] then (js, Ok([]))
    else
      var n := |items| - 1;
      var (before, done) := EnqueueItems(js, facts, items[..n], clock);
      if done.Err? then (before, done)
      else
        var item := items[n];
        var (after, r) := Enqueue(before, item.req, item.newId, clock, item.seqNo,
                                  Quotas.JobAdmission(facts, PendingCount(before)));
        if r.Err? then (after, Err(r.error)) else (after, Ok(done.value + [r.value]))
  }

  /** The whole call: the depth check is made once, against the depth the batch would produce. */
  function EnqueueBatch(js: Jobs, facts: Quotas.Facts, items: seq<Item>, clock: int): (Jobs, Result<seq<Job>>) {
    var admitted := Quotas.BatchAdmission(facts, PendingCount(js), |items|);
    if admitted.Err? then (js, Err(admitted.error)) else EnqueueItems(js, facts, items, clock)
  }

  method EnqueueMany(store: Directory, kind: string, items: seq<Item>, clock: int) returns (r: Result<seq<Job>>)
    requires store.Valid()
    requires forall item | item in items :: item.req.kind == kind
    modifies store`jobs
    ensures store.Valid()
    ensures (store.jobs, r) == EnqueueBatch(old(store.jobs), store.facts, items, clock)
  {
    var pending := store.CountPending();
    var charged := pending + if |items| == 0 then 0 else |items| - 1;
    var usage := Quotas.UsageFor(store.facts, charged, Quotas.KeysFor(Quotas.JobWork));
    var admitted := Quotas.RequireAdmission(store.facts, Quotas.JobWork, usage);
    if admitted.Err? {
      return Err(admitted.error);
    }
    var out: seq<Job> := [];
    for i := 0 to |items|
      invariant store.Valid()
      invariant (store.jobs, Ok(out)) == EnqueueItems(old(store.jobs), store.facts, items[..i], clock)
    {
      assert items[..i + 1][..i] == items[..i];
      var item := items[i];
      var one := Queue.EnqueueJob(store, item.req, item.newId, clock, item.seqNo);
      if one.Err? {
        StopsAt(old(store.jobs), store.facts, items, i, clock);
        return Err(one.error);
      }
      out := out + [one.value];
    }
    assert items[..|items|] == items;
    r := Ok(out);
  }

  /** A refused item ends the batch there. */
  lemma {:induction false} StopsAt(js: Jobs, facts: Quotas.Facts, items: seq<Item>, i: nat, clock: int)
    requires i < |items| && EnqueueItems(js, facts, items[..i + 1], clock).1.Err?
    ensures EnqueueItems(js, facts, items, clock) == EnqueueItems(js, facts, items[..i + 1], clock)
    decreases |items|
  {
    if i + 1 == |items| {
      assert items[..i + 1] == items;
    } else {
      var n := |items| - 1;
      assert items[..n][..i + 1] == items[..i + 1];
      StopsAt(js, facts, items[..n], i, clock);
    }
  }

  // ---- all or nothing --------------------------------------------------------------

  lemma DepthGrowsByOne(js: Jobs, id: JobId, job: Job)
    ensures PendingCount(js[id := job]) <= PendingCount(js) + 1
  {
    var before := set x | x in js && js[x].status == Pending;
    var grown := js[id := job];
    var after := set x | x in grown && grown[x].status == Pending;
    assert after <= before + {id};
    Sets.Included(after, before + {id});
  }

  /** Admission only gets stricter as the queue gets deeper. */
  lemma AdmissionIsMonotone(facts: Quotas.Facts, depth: nat, deeper: nat)
    requires depth <= deeper && Quotas.JobAdmission(facts, deeper).Ok?
    ensures Quotas.JobAdmission(facts, depth).Ok?
  {
    var keys := Quotas.KeysFor(Quotas.JobWork);
    forall key | key in keys
      ensures !Quotas.AtLimit(facts.quota.value, Quotas.UsageFor(facts, depth, keys), key)
    {
      assert !Quotas.AtLimit(facts.quota.value, Quotas.UsageFor(facts, deeper, keys), key);
    }
  }

  /** Once the charged check has passed, no item is refused by its own, whether ids repeat or exist
      already; each returned job is in the queue, and the queue is no deeper than charged for. */
  lemma {:induction false} NoItemIsRefused(js: Jobs, facts: Quotas.Facts, items: seq<Item>, clock: int, size: nat)
    requires |items| <= size && Quotas.BatchAdmission(facts, PendingCount(js), size).Ok?
    requires forall item | item in items :: item.req.kind != ""
    ensures var (after, r) := EnqueueItems(js, facts, items, clock);
            && r.Ok? && |r.value| == |items|
            && PendingCount(after) <= PendingCount(js) + |items|
  {
    if items != [] {
      var n := |items| - 1;
      NoItemIsRefused(js, facts, items[..n], clock, size);
      var before := EnqueueItems(js, facts, items[..n], clock).0;
      AdmissionIsMonotone(facts, PendingCount(before), PendingCount(js) + size - 1);
      var item := items[n];
      var id := IdFor(item.req, item.newId);
      DepthGrowsByOne(before, id, NewJob(item.req, id, clock, item.seqNo));
    }
  }

  /** A batch is taken whole or not at all, and never leaves the queue deeper than the quota. */
  lemma BatchIsAllOrNothing(js: Jobs, facts: Quotas.Facts, kind: string, items: seq<Item>, clock: int)
    requires forall item | item in items :: item.req.kind == kind
    ensures var (after, r) := EnqueueBatch(js, facts, items, clock);
            && (r.Err? ==> after == js)
            && (r.Ok? ==> |r.value| == |items|)
            && (r.Ok? <==> Quotas.BatchAdmission(facts, PendingCount(js), |items|).Ok? && (kind != "" || items == []))
            && (r.Ok? && Quotas.QueueDepth in facts.quota.value ==>
                  PendingCount(after) as real <= facts.quota.value[Quotas.QueueDepth])
  {
    var size := |items|;
    if Quotas.BatchAdmission(facts, PendingCount(js), size).Ok? {
      if kind != "" {
        NoItemIsRefused(js, facts, items, clock, size);
        DepthWithinQuota(facts, PendingCount(js), size);
      } else {
        NothingWithoutAType(js, facts, items, clock);
        DepthWithinQuota(facts, PendingCount(js), size);
      }
    }
  }

  lemma {:induction false} NothingWithoutAType(js: Jobs, facts: Quotas.Facts, items: seq<Item>, clock: int)
    requires forall item | item in items :: item.req.kind == ""
    ensures EnqueueItems(js, facts, items, clock) == (js, if items == [] then Ok([]) else Err(Validation))
  {
    if items != [] {
      NothingWithoutAType(js, facts, items[..|items| - 1], clock);
    }
  }

  lemma DepthWithinQuota(facts: Quotas.Facts, depth: nat, size: nat)
    requires Quotas.BatchAdmission(facts, depth, size).Ok?
    ensures Quotas.QueueDepth in facts.quota.value ==> (depth + size) as real <= facts.quota.value[Quotas.QueueDepth]
  {
    Quotas.JobKeys();
    if Quotas.QueueDepth in facts.quota.value {
      var charged := depth + if size == 0 then 0 else size - 1;
      var usage := Quotas.UsageFor(facts, charged, Quotas.KeysFor(Quotas.JobWork));
      assert !Quotas.AtLimit(facts.quota.value, usage, Quotas.QueueDepth);
      assert charged < facts.quota.value[Quotas.QueueDepth].Floor;
    }
  }
}
