/** Admission: whether a workspace may take on new work, and which ceiling refuses it. */
module Quotas {
  import opened Outcomes

  datatype UsageKey = ConcurrentRuns | RunsToday | QueueDepth | TokensToday | CostToday | LiveWorkers
  datatype Kind = RunWork | JobWork | WorkerWork | AnyWork

  /** What each ceiling is a ceiling on. Tokens and cost bind every kind of work. */
  const LIMITS: seq<(UsageKey, Kind)> :=
    [(ConcurrentRuns, RunWork), (RunsToday, RunWork), (QueueDepth, JobWork),
     (TokensToday, AnyWork), (CostToday, AnyWork), (LiveWorkers, WorkerWork)]

  /** Ceilings as the policy is coerced: never negative, and whole numbers but for the cost. */
  predicate Coerced(policy: map<UsageKey, real>) {
    forall key | key in policy :: policy[key] >= 0.0 && (key != CostToday ==> policy[key] == policy[key].Floor as real)
  }

  type Policy = policy: map<UsageKey, real> | Coerced(policy) witness map[]
  type Usage = map<UsageKey, real>

  /** What admission reads besides the queue: the lifecycle, the quota policy as it resolves
      (a malformed one refuses), the organization's pushed-down verdict, and today's meter. */
  datatype Facts = Facts(
    active: bool,
    quota: Result<Policy>,
    orgExhausted: bool,
    metered: Usage)

  datatype Violation = AtCeiling(key: UsageKey, current: real, ceiling: real) | OrgBudget

  function Consumed(usage: Usage, key: UsageKey): real {
    if key in usage then usage[key] else 0.0
  }

  /** Consumption for exactly the requested keys. */
  function UsageFor(facts: Facts, pending: nat, keys: set<UsageKey>): Usage {
    map key | key in keys :: if key == QueueDepth then pending as real else Consumed(facts.metered, key)
  }

  predicate Applies(limit: (UsageKey, Kind), kind: Kind) {
    kind == AnyWork || limit.1 == AnyWork || limit.1 == kind
  }

  /** The ceilings a kind of work is held to. */
  function KeysFor(kind: Kind): set<UsageKey> {
    set i | 0 <= i < |LIMITS| && Applies(LIMITS[i], kind) :: LIMITS[i].0
  }

  lemma JobKeys()
    ensures KeysFor(JobWork) == {QueueDepth, TokensToday, CostToday}
  {
    assert LIMITS[2].0 == QueueDepth && LIMITS[3].0 == TokensToday && LIMITS[4].0 == CostToday;
  }

  lemma RunKeys()
    ensures KeysFor(RunWork) == {ConcurrentRuns, RunsToday, TokensToday, CostToday}
  {
    assert LIMITS[0].0 == ConcurrentRuns && LIMITS[1].0 == RunsToday;
    assert LIMITS[3].0 == TokensToday && LIMITS[4].0 == CostToday;
  }

  predicate AtLimit(policy: Policy, usage: Usage, key: UsageKey) {
    key in policy && Consumed(usage, key) >= policy[key]
  }

  /** The decision itself: refused when any ceiling that binds this kind of work is reached. */
  function Admission(facts: Facts, kind: Kind, usage: Usage): Result<()> {
    if !facts.active then Err(WorkspaceDisabled)
    else if facts.quota.Err? then Err(facts.quota.error)
    else if facts.orgExhausted || exists key | key in KeysFor(kind) :: AtLimit(facts.quota.value, usage, key) then
      Err(QuotaExceeded)
    else Ok(())
  }

  /** One enqueue asks about the queue as it stands. */
  function JobAdmission(facts: Facts, pending: nat): Result<()> {
    Admission(facts, JobWork, UsageFor(facts, pending, KeysFor(JobWork)))
  }

  /** A run is not held to the depth of the queue. */
  function RunAdmission(facts: Facts, pending: nat): Result<()> {
    Admission(facts, RunWork, UsageFor(facts, pending, KeysFor(RunWork)))
  }

  /** Once a run is admitted, all that can refuse its job is the depth of the queue. */
  lemma JobAfterRun(facts: Facts, pending: nat)
    requires RunAdmission(facts, pending).Ok?
    ensures JobAdmission(facts, pending).Err? <==>
            QueueDepth in facts.quota.value && pending as real >= facts.quota.value[QueueDepth]
  {
    JobKeys();
    RunKeys();
    var runUsage, jobUsage := UsageFor(facts, pending, KeysFor(RunWork)), UsageFor(facts, pending, KeysFor(JobWork));
    forall key | key in {TokensToday, CostToday}
      ensures !AtLimit(facts.quota.value, jobUsage, key)
    {
      assert !AtLimit(facts.quota.value, runUsage, key);
    }
  }

  /** The figure is below its ceiling, if there is one. */
  predicate Below(policy: Policy, key: UsageKey, figure: real) {
    key in policy ==> figure < policy[key]
  }

  /** A job is admitted exactly into an active workspace with a sound policy and budget left in its organization,
      while the queue, the tokens and the cost of the day are below their ceilings; nothing else counts. */
  lemma JobAdmittedExactly(facts: Facts, pending: nat)
    ensures var r := JobAdmission(facts, pending);
            if !facts.active then r == Err(WorkspaceDisabled)
            else if facts.quota.Err? then r == Err(facts.quota.error)
            else if !facts.orgExhausted && Below(facts.quota.value, QueueDepth, pending as real)
                    && (forall key | key in {TokensToday, CostToday} ::
                          Below(facts.quota.value, key, if key in facts.metered then facts.metered[key] else 0.0))
            then r == Ok(())
            else r == Err(QuotaExceeded)
  {
    JobKeys();
    if facts.active && facts.quota.Ok? {
      assert forall key | key in {TokensToday, CostToday} :: key in KeysFor(JobWork);
      assert QueueDepth in KeysFor(JobWork);
    }
  }

  /** A run is held to the runs under way and of the day instead of the depth of the queue. */
  lemma RunAdmittedExactly(facts: Facts, pending: nat)
    ensures var r := RunAdmission(facts, pending);
            if !facts.active then r == Err(WorkspaceDisabled)
            else if facts.quota.Err? then r == Err(facts.quota.error)
            else if !facts.orgExhausted
                    && (forall key | key in {ConcurrentRuns, RunsToday, TokensToday, CostToday} ::
                          Below(facts.quota.value, key, if key in facts.metered then facts.metered[key] else 0.0))
            then r == Ok(())
            else r == Err(QuotaExceeded)
  {
    RunKeys();
    if facts.active && facts.quota.Ok? {
      assert forall key | key in {ConcurrentRuns, RunsToday, TokensToday, CostToday} :: key in KeysFor(RunWork);
    }
  }

  /** A batch is charged for all its items up front. */
  function BatchAdmission(facts: Facts, pending: nat, items: nat): Result<()> {
    JobAdmission(facts, pending + if items == 0 then 0 else items - 1)
  }

  /** A reported ceiling binds this kind of work, is reached, and is reported with its figures. */
  predicate Genuine(v: Violation, policy: Policy, kind: Kind, usage: Usage) {
    && v.AtCeiling?
    && v.key in KeysFor(kind)
    && AtLimit(policy, usage, v.key)
    && v.current == Consumed(usage, v.key)
    && v.ceiling == policy[v.key]
  }

  predicate Reported(violations: seq<Violation>, key: UsageKey) {
    exists v | v in violations :: v.AtCeiling? && v.key == key
  }

  /** The list of exhausted ceilings, in the order they are declared, the organization last. */
  method CheckAdmission(facts: Facts, policy: Policy, kind: Kind, usage: Usage) returns (violations: seq<Violation>)
    requires facts.quota == Ok(policy)
    ensures violations == [] <==> !facts.orgExhausted
                                  && forall key | key in KeysFor(kind) :: !AtLimit(policy, usage, key)
    ensures forall v | v in violations && v.AtCeiling? :: Genuine(v, policy, kind, usage)
    ensures forall key | key in KeysFor(kind) && AtLimit(policy, usage, key) :: Reported(violations, key)
    ensures OrgBudget in violations <==> facts.orgExhausted
  {
    violations := [];
    for i := 0 to |LIMITS|
      invariant violations == [] <==>
        forall k | 0 <= k < i :: !(Applies(LIMITS[k], kind) && AtLimit(policy, usage, LIMITS[k].0))
      invariant forall v | v in violations :: Genuine(v, policy, kind, usage)
      invariant forall k | 0 <= k < i && Applies(LIMITS[k], kind) && AtLimit(policy, usage, LIMITS[k].0) ::
        Reported(violations, LIMITS[k].0)
    {
      ghost var before := violations;
      var key := LIMITS[i].0;
      if Applies(LIMITS[i], kind) && AtLimit(policy, usage, key) {
        violations := violations + [AtCeiling(key, Consumed(usage, key), policy[key])];
        assert violations[|before|].key == key;
      }
      assert forall v | v in before :: v in violations;
    }
    if facts.orgExhausted {
      ghost var before := violations;
      violations := violations + [OrgBudget];
      assert forall v | v in before :: v in violations;
    }
  }

  method RequireAdmission(facts: Facts, kind: Kind, usage: Usage) returns (r: Result<()>)
    ensures r == Admission(facts, kind, usage)
  {
    if !facts.active {
      return Err(WorkspaceDisabled);
    }
    if facts.quota.Err? {
      return Err(facts.quota.error);
    }
    var violations := CheckAdmission(facts, facts.quota.value, kind, usage);
    r := if violations == [] then Ok(()) else Err(QuotaExceeded);
  }
}
