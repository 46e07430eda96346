/** Promotion gates: what an environment demands of a version, and the evidence that meets it. */
module Gates {
  import opened Outcomes
  import opened Texts

  type VersionId = string

  datatype VersionState = Active | Retired

  datatype Version = Version(
    id: VersionId,
    agent: string,
    bundleHash: string,
    state: VersionState,
    metadata: map<string, string>)

  // ---- policy ----------------------------------------------------------------------

  /** One entry of the policy document: the fields it sets, and any it should not have. */
  datatype GateSpec = GateSpec(
    requireReadiness: Option<bool>,
    requireEvals: Option<bool>,
    minEvalScore: Option<real>,
    allowWarnings: Option<bool>,
    requireActor: Option<bool>,
    requireProvenance: Option<seq<string>>,
    unrecognised: set<string>)

  const NO_DEMANDS := GateSpec(None, None, None, None, None, None, {})

  datatype Policy = Malformed | Policy(defaults: GateSpec, environments: map<string, GateSpec>)

  /** Each agent's own policy, and the unqualified one from before agents had their own. */
  datatype Policies = Policies(own: map<string, Policy>, shared: Option<Policy>)

  datatype Gate = Gate(
    requireReadiness: bool,
    requireEvals: bool,
    minEvalScore: real,
    allowWarnings: bool,
    requireActor: bool,
    requireProvenance: seq<string>) {

    predicate Enforced() {
      requireReadiness || requireEvals || requireActor || requireProvenance != []
    }
  }

  function Or<T>(a: Option<T>, b: Option<T>): Option<T> {
    if a.Some? then a else b
  }

  function Get<T>(a: Option<T>, fallback: T): T {
    if a.Some? then a.value else fallback
  }

  /** An environment's entry laid over the default one. */
  function Merged(defaults: GateSpec, perEnv: GateSpec): GateSpec {
    GateSpec(Or(perEnv.requireReadiness, defaults.requireReadiness),
             Or(perEnv.requireEvals, defaults.requireEvals),
             Or(perEnv.minEvalScore, defaults.minEvalScore),
             Or(perEnv.allowWarnings, defaults.allowWarnings),
             Or(perEnv.requireActor, defaults.requireActor),
             Or(perEnv.requireProvenance, defaults.requireProvenance),
             perEnv.unrecognised + defaults.unrecognised)
  }

  /** A gate is refused rather than partly applied. */
  function Coerce(spec: GateSpec): Result<Gate> {
    if spec.unrecognised != {} then Err(Validation)
    else if !(0.0 <= Get(spec.minEvalScore, 1.0) <= 1.0) then Err(Validation)
    else Ok(Gate(Get(spec.requireReadiness, false), Get(spec.requireEvals, false), Get(spec.minEvalScore, 1.0),
                 Get(spec.allowWarnings, true), Get(spec.requireActor, false), Get(spec.requireProvenance, [])))
  }

  function PolicyFor(policies: Policies, agent: string): Policy {
    if agent != "" && agent in policies.own then policies.own[agent]
    else Get(policies.shared, Policy(NO_DEMANDS, map[]))
  }

  function ResolveGate(policies: Policies, environment: string, agent: string): Result<Gate> {
    match PolicyFor(policies, agent)
    case Malformed => Err(PromotionBlocked)
    case Policy(defaults, environments) =>
      Coerce(Merged(defaults, if environment in environments then environments[environment] else NO_DEMANDS))
  }

  /** Writing a policy validates every entry first; writing none clears the agent's own. */
  function SetGate(policies: Policies, agent: string, policy: Option<Policy>): Result<Policies> {
    if policy.None? then
      Ok(if agent == "" then policies.(shared := None) else policies.(own := policies.own - {agent}))
    else if policy.value.Malformed? then Err(Validation)
    else if Coerce(policy.value.defaults).Err?
            || (exists name | name in policy.value.environments :: Coerce(policy.value.environments[name]).Err?)
    then Err(Validation)
    else Ok(if agent == "" then policies.(shared := policy) else policies.(own := policies.own[agent := policy.value]))
  }

  // ---- evidence --------------------------------------------------------------------

  datatype Requirement = NeedsReadiness | NeedsEvals | NeedsActor | NeedsProvenance

  datatype Attestation =
    | Readiness(ok: bool, bundleHash: Option<string>, warnings: nat)
    | Evals(ok: bool, hasEvals: bool, score: Option<real>)
    | Override(environment: string, actor: Option<string>, bypassed: seq<Requirement>)

  /** The last readiness report filed, if any. */
  function LatestReadiness(records: seq<Attestation>): Option<Attestation> {
    if records == [] then None
    else if records[|records| - 1].Readiness? then Some(records[|records| - 1])
    else LatestReadiness(records[..|records| - 1])
  }

  function LatestEvals(records: seq<Attestation>): Option<Attestation> {
    if records == [] then None
    else if records[|records| - 1].Evals? then Some(records[|records| - 1])
    else LatestEvals(records[..|records| - 1])
  }

  /** The report is the newest of its kind in the log. */
  ghost predicate Newest(records: seq<Attestation>, i: nat) {
    && i < |records|
    && forall j | i < j < |records| ::
         records[j].Readiness? != records[i].Readiness? || records[j].Evals? != records[i].Evals?
  }

  predicate ReadinessGood(gate: Gate, version: Version, report: Attestation) {
    && report.Readiness?
    && (Truthy(report.bundleHash) ==> report.bundleHash == Some(version.bundleHash))
    && report.ok
    && (gate.allowWarnings || report.warnings == 0)
  }

  /** An empty suite proves nothing, whatever it scored. */
  predicate EvalsGood(gate: Gate, report: Attestation) {
    report.Evals? && report.hasEvals && report.ok && (report.score.Some? ==> report.score.value >= gate.minEvalScore)
  }

  function Missing(version: Version, keys: seq<string>): seq<string> {
    if keys == [] then []
    else
      var before := Missing(version, keys[..|keys| - 1]);
      var key := keys[|keys| - 1];
      if key in version.metadata && version.metadata[key] != "" then before else before + [key]
  }

  /** One requirement, by what it asks for. */
  ghost predicate Met(need: Requirement, gate: Gate, version: Version, records: seq<Attestation>,
                      actor: Option<string>) {
    match need
    case NeedsReadiness => exists i: nat :: Newest(records, i) && ReadinessGood(gate, version, records[i])
    case NeedsEvals => exists i: nat :: Newest(records, i) && EvalsGood(gate, records[i])
    case NeedsActor => NonBlank(actor)
    case NeedsProvenance =>
      forall key | key in gate.requireProvenance :: key in version.metadata && version.metadata[key] != ""
  }

  predicate Demands(gate: Gate, need: Requirement) {
    match need
    case NeedsReadiness => gate.requireReadiness
    case NeedsEvals => gate.requireEvals
    case NeedsActor => gate.requireActor
    case NeedsProvenance => gate.requireProvenance != []
  }

  /** The gate lets this version through: everything it demands is met. */
  ghost predicate Passes(gate: Gate, version: Version, records: seq<Attestation>, actor: Option<string>) {
    forall need: Requirement :: Demands(gate, need) ==> Met(need, gate, version, records, actor)
  }

  /** The gate demands this and the version does not have it. */
  predicate Lacks(need: Requirement, gate: Gate, version: Version, records: seq<Attestation>, actor: Option<string>) {
    match need
    case NeedsReadiness =>
      var report := LatestReadiness(records);
      gate.requireReadiness && !(report.Some? && ReadinessGood(gate, version, report.value))
    case NeedsEvals =>
      var report := LatestEvals(records);
      gate.requireEvals && !(report.Some? && EvalsGood(gate, report.value))
    case NeedsActor => gate.requireActor && !NonBlank(actor)
    case NeedsProvenance => gate.requireProvenance != [] && Missing(version, gate.requireProvenance) != []
  }

  function IfLacking(need: Requirement, gate: Gate, version: Version, records: seq<Attestation>,
                     actor: Option<string>): seq<Requirement> {
    if Lacks(need, gate, version, records, actor) then [need] else []
  }

  /** Everything lacking, in the order the checks are made. */
  function Unmet(gate: Gate, version: Version, records: seq<Attestation>, actor: Option<string>): seq<Requirement> {
    IfLacking(NeedsReadiness, gate, version, records, actor)
    + IfLacking(NeedsEvals, gate, version, records, actor)
    + IfLacking(NeedsActor, gate, version, records, actor)
    + IfLacking(NeedsProvenance, gate, version, records, actor)
  }

  lemma LacksIsUnmet(need: Requirement, gate: Gate, version: Version, records: seq<Attestation>, actor: Option<string>)
    ensures Lacks(need, gate, version, records, actor) <==>
            Demands(gate, need) && !Met(need, gate, version, records, actor)
  {
    match need
    case NeedsReadiness => ReadinessDecided(gate, version, records);
    case NeedsEvals => EvalsDecided(gate, records);
    case NeedsActor =>
    case NeedsProvenance => MissingIs(version, gate.requireProvenance);
  }

  lemma UnmetMembers(need: Requirement, gate: Gate, version: Version, records: seq<Attestation>, actor: Option<string>)
    ensures need in Unmet(gate, version, records, actor) <==> Lacks(need, gate, version, records, actor)
  {
    hide Lacks;
  }

  /** The list names exactly the demands that are not met, so it is empty when the gate passes. */
  lemma UnmetNeeds(gate: Gate, version: Version, records: seq<Attestation>, actor: Option<string>)
    ensures forall need :: need in Unmet(gate, version, records, actor) <==>
              Demands(gate, need) && !Met(need, gate, version, records, actor)
    ensures Unmet(gate, version, records, actor) == [] <==> Passes(gate, version, records, actor)
  {
    var unmet := Unmet(gate, version, records, actor);
    forall need ensures need in unmet <==> Demands(gate, need) && !Met(need, gate, version, records, actor) {
      LacksIsUnmet(need, gate, version, records, actor);
      UnmetMembers(need, gate, version, records, actor);
    }
    if unmet != [] {
      assert unmet[0] in unmet;
    }
  }

  datatype Check = Check(need: Requirement, ok: bool)

  function NeedsOf(checks: seq<Check>): (needs: seq<Requirement>)
    ensures |needs| == |checks|
  {
    seq(|checks|, i requires 0 <= i < |checks| => checks[i].need)
  }

  lemma NeedsJoin(a: seq<Check>, b: seq<Check>)
    ensures NeedsOf(a + b) == NeedsOf(a) + NeedsOf(b)
  {
  }

  /** Everything the gate demands, in the order the checks are made. */
  function Demanded(gate: Gate): seq<Requirement> {
    (if Demands(gate, NeedsReadiness) then [NeedsReadiness] else [])
    + (if Demands(gate, NeedsEvals) then [NeedsEvals] else [])
    + (if Demands(gate, NeedsActor) then [NeedsActor] else [])
    + (if Demands(gate, NeedsProvenance) then [NeedsProvenance] else [])
  }

  function Blocked(checks: seq<Check>): seq<Requirement> {
    if checks == [] then []
    else
      var last := checks[|checks| - 1];
      Blocked(checks[..|checks| - 1]) + if last.ok then [] else [last.need]
  }

  lemma {:induction false} BlockedJoin(a: seq<Check>, b: seq<Check>)
    ensures Blocked(a + b) == Blocked(a) + Blocked(b)
  {
    if b == [] {
      assert a + b == a;
    } else {
      var init := b[..|b| - 1];
      BlockedJoin(a, init);
      assert (a + b)[..|a + b| - 1] == a + init;
    }
  }

  lemma BlockedOne(check: Check)
    ensures Blocked([check]) == if check.ok then [] else [check.need]
  {
    assert Blocked([check][..0]) == [];
  }

  method CheckReadiness(gate: Gate, version: Version, records: seq<Attestation>, actor: Option<string>)
    returns (checks: seq<Check>)
    ensures NeedsOf(checks) == if Demands(gate, NeedsReadiness) then [NeedsReadiness] else []
    ensures Blocked(checks) == IfLacking(NeedsReadiness, gate, version, records, actor)
  {
    checks := [];
    if gate.requireReadiness {
      var report := LatestReadiness(records);
      var check := Check(NeedsReadiness, report.Some? && ReadinessGood(gate, version, report.value));
      BlockedOne(check);
      checks := [check];
    }
  }

  method CheckEvals(gate: Gate, version: Version, records: seq<Attestation>, actor: Option<string>)
    returns (checks: seq<Check>)
    ensures NeedsOf(checks) == if Demands(gate, NeedsEvals) then [NeedsEvals] else []
    ensures Blocked(checks) == IfLacking(NeedsEvals, gate, version, records, actor)
  {
    checks := [];
    if gate.requireEvals {
      var report := LatestEvals(records);
      var check := Check(NeedsEvals, report.Some? && EvalsGood(gate, report.value));
      BlockedOne(check);
      checks := [check];
    }
  }

  method CheckActor(gate: Gate, version: Version, records: seq<Attestation>, actor: Option<string>)
    returns (checks: seq<Check>)
    ensures NeedsOf(checks) == if Demands(gate, NeedsActor) then [NeedsActor] else []
    ensures Blocked(checks) == IfLacking(NeedsActor, gate, version, records, actor)
  {
    checks := [];
    if gate.requireActor {
      var check := Check(NeedsActor, NonBlank(actor));
      BlockedOne(check);
      checks := [check];
    }
  }

  method CheckProvenance(gate: Gate, version: Version, records: seq<Attestation>, actor: Option<string>)
    returns (checks: seq<Check>)
    ensures NeedsOf(checks) == if Demands(gate, NeedsProvenance) then [NeedsProvenance] else []
    ensures Blocked(checks) == IfLacking(NeedsProvenance, gate, version, records, actor)
  {
    checks := [];
    if gate.requireProvenance != [] {
      var missing := Missing(version, gate.requireProvenance);
      var check := Check(NeedsProvenance, missing == []);
      BlockedOne(check);
      checks := [check];
    }
  }

  /** Evaluate the gate, one check for each thing it demands; the failed ones are what is unmet. */
  method CheckPromotion(gate: Gate, version: Version, records: seq<Attestation>, actor: Option<string>)
    returns (checks: seq<Check>)
    ensures NeedsOf(checks) == Demanded(gate)
    ensures Blocked(checks) == Unmet(gate, version, records, actor)
  {
    hide Lacks, Demands, NeedsOf, Blocked;
    var readiness := CheckReadiness(gate, version, records, actor);
    var evals := CheckEvals(gate, version, records, actor);
    var attributed := CheckActor(gate, version, records, actor);
    var provenance := CheckProvenance(gate, version, records, actor);
    BlockedJoin(readiness, evals);
    BlockedJoin(readiness + evals, attributed);
    BlockedJoin(readiness + evals + attributed, provenance);
    checks := readiness + evals + attributed + provenance;
    NeedsJoin(readiness, evals);
    NeedsJoin(readiness + evals, attributed);
    NeedsJoin(readiness + evals + attributed, provenance);
  }

  lemma {:induction false} LatestReadinessIs(records: seq<Attestation>)
    ensures var latest := LatestReadiness(records);
            && (latest.None? ==> forall i | 0 <= i < |records| :: !records[i].Readiness?)
            && (latest.Some? ==> exists i: nat :: Newest(records, i) && records[i] == latest.value
                                   && records[i].Readiness?)
  {
    if records != [] && !records[|records| - 1].Readiness? {
      var init := records[..|records| - 1];
      LatestReadinessIs(init);
      if LatestReadiness(init).Some? {
        var i: nat :| Newest(init, i) && init[i] == LatestReadiness(init).value && init[i].Readiness?;
        assert Newest(records, i);
      }
    } else if records != [] {
      assert Newest(records, |records| - 1);
    }
  }

  lemma ReadinessDecided(gate: Gate, version: Version, records: seq<Attestation>)
    ensures Met(NeedsReadiness, gate, version, records, None) <==>
            LatestReadiness(records).Some? && ReadinessGood(gate, version, LatestReadiness(records).value)
  {
    LatestReadinessIs(records);
  }

  lemma {:induction false} LatestEvalsIs(records: seq<Attestation>)
    ensures var latest := LatestEvals(records);
            && (latest.None? ==> forall i | 0 <= i < |records| :: !records[i].Evals?)
            && (latest.Some? ==> exists i: nat :: Newest(records, i) && records[i] == latest.value && records[i].Evals?)
  {
    if records != [] && !records[|records| - 1].Evals? {
      var init := records[..|records| - 1];
      LatestEvalsIs(init);
      if LatestEvals(init).Some? {
        var i: nat :| Newest(init, i) && init[i] == LatestEvals(init).value && init[i].Evals?;
        assert Newest(records, i);
      }
    } else if records != [] {
      assert Newest(records, |records| - 1);
    }
  }

  lemma EvalsDecided(gate: Gate, records: seq<Attestation>)
    ensures (exists i: nat :: Newest(records, i) && EvalsGood(gate, records[i])) <==>
            LatestEvals(records).Some? && EvalsGood(gate, LatestEvals(records).value)
  {
    LatestEvalsIs(records);
  }

  lemma {:induction false} MissingIs(version: Version, keys: seq<string>)
    ensures Missing(version, keys) == [] <==>
            forall key | key in keys :: key in version.metadata && version.metadata[key] != ""
  {
    if keys != [] {
      MissingIs(version, keys[..|keys| - 1]);
      assert keys == keys[..|keys| - 1] + [keys[|keys| - 1]];
    }
  }

  // ---- enforcement -----------------------------------------------------------------

  /** Refuse a promotion the gate blocks, unless it is forced; a forced one leaves an override in the
      version's log. The result is the log afterwards. */
  function RequirePromotion(policies: Policies, version: Version, records: seq<Attestation>, environment: string,
                            actor: Option<string>, force: bool): Result<seq<Attestation>> {
    var gate := ResolveGate(policies, environment, version.agent);
    if gate.Err? then Err(gate.error)
    else
      var unmet := Unmet(gate.value, version, records, actor);
      if unmet == [] || !gate.value.Enforced() then Ok(records)
      else if force then Ok(records + [Override(environment, actor, unmet)])
      else Err(PromotionBlocked)
  }

  /** The gate in force passes, or an override for this environment was put on record. */
  ghost predicate Vetted(policies: Policies, version: Version, records: seq<Attestation>, environment: string,
                         actor: Option<string>, after: seq<Attestation>) {
    || (ResolveGate(policies, environment, version.agent).Ok?
        && Passes(ResolveGate(policies, environment, version.agent).value, version, records, actor))
    || HasOverride(after, environment)
  }

  ghost predicate HasOverride(records: seq<Attestation>, environment: string) {
    exists record :: record in records && record.Override? && record.environment == environment
  }

  /** An admitted promotion is a vetted one; only a forced one can pass a gate that does not. */
  lemma AdmittedIsVetted(policies: Policies, version: Version, records: seq<Attestation>, environment: string,
                         actor: Option<string>, force: bool)
    ensures var r := RequirePromotion(policies, version, records, environment, actor, force);
            && (r.Ok? ==> records <= r.value && Vetted(policies, version, records, environment, actor, r.value))
            && (r.Ok? && !force ==>
                  Passes(ResolveGate(policies, environment, version.agent).value, version, records, actor)
                                    && r.value == records)
            && (r.Err? ==> ResolveGate(policies, environment, version.agent).Err?
                           || (!force && !Passes(ResolveGate(policies, environment, version.agent).value,
                                                 version, records, actor)))
  {
    var gate := ResolveGate(policies, environment, version.agent);
    if gate.Ok? {
      UnmetNeeds(gate.value, version, records, actor);
      var unmet := Unmet(gate.value, version, records, actor);
      if unmet != [] {
        var forced := Override(environment, actor, unmet);
        assert forced in records + [forced];
      }
    }
  }

  /** The newest report of a kind decides, whatever was filed before it: a failed re-run blocks, and a
      passing re-run unblocks. */
  lemma NewestReadinessDecides(gate: Gate, version: Version, records: seq<Attestation>, report: Attestation,
                               actor: Option<string>)
    ensures report.Readiness? ==>
              (Met(NeedsReadiness, gate, version, records + [report], actor) <==> ReadinessGood(gate, version, report))
    ensures report.Evals? ==>
              (Met(NeedsEvals, gate, version, records + [report], actor) <==> EvalsGood(gate, report))
    ensures !report.Readiness? ==>
              (Met(NeedsReadiness, gate, version, records + [report], actor) <==>
               Met(NeedsReadiness, gate, version, records, actor))
    ensures !report.Evals? ==>
              (Met(NeedsEvals, gate, version, records + [report], actor) <==>
               Met(NeedsEvals, gate, version, records, actor))
  {
    var grown := records + [report];
    assert grown[..|grown| - 1] == records;
    ReadinessDecided(gate, version, grown);
    ReadinessDecided(gate, version, records);
    EvalsDecided(gate, grown);
    EvalsDecided(gate, records);
  }

  /** The entries that bear on an environment, its own over the default one, ask for nothing: no demand
      is switched on, no warning forbidden, the score left at its default, and no field is unknown. */
  predicate AsksNothing(policy: Policy, environment: string) {
    && policy.Policy?
    && var entry := if environment in policy.environments then policy.environments[environment] else NO_DEMANDS;
       && entry.unrecognised == {} && policy.defaults.unrecognised == {}
       && Or(entry.requireReadiness, policy.defaults.requireReadiness) != Some(true)
       && Or(entry.requireEvals, policy.defaults.requireEvals) != Some(true)
       && Or(entry.requireActor, policy.defaults.requireActor) != Some(true)
       && Or(entry.allowWarnings, policy.defaults.allowWarnings) != Some(false)
       && Get(Or(entry.minEvalScore, policy.defaults.minEvalScore), 1.0) == 1.0
       && Get(Or(entry.requireProvenance, policy.defaults.requireProvenance), []) == []
  }

  /** Clearing an agent's policy leaves it without a gate exactly when there is no shared policy, or one
      that asks nothing of the environment; otherwise the shared one is back in force. No other agent is
      touched. */
  lemma ClearedPolicyFallsBack(policies: Policies, agent: string, other: string, environment: string)
    requires agent != "" && other != agent
    ensures var r := SetGate(policies, agent, None);
            && r.Ok?
            && (ResolveGate(r.value, environment, agent) == Coerce(NO_DEMANDS) <==>
                  policies.shared.None? || AsksNothing(policies.shared.value, environment))
            && ResolveGate(r.value, environment, agent) == ResolveGate(policies.(own := map[]), environment, agent)
            && ResolveGate(r.value, environment, other) == ResolveGate(policies, environment, other)
  {
    var cleared := SetGate(policies, agent, None).value;
    assert agent !in cleared.own;
    if policies.shared.Some? && policies.shared.value.Policy? {
      var shared := policies.shared.value;
      var entry := if environment in shared.environments then shared.environments[environment] else NO_DEMANDS;
      CoercesToNothing(Merged(shared.defaults, entry));
    }
  }

  lemma CoercesToNothing(spec: GateSpec)
    ensures Coerce(spec) == Coerce(NO_DEMANDS) <==>
            && spec.unrecognised == {} && spec.requireReadiness != Some(true) && spec.requireEvals != Some(true)
            && spec.requireActor != Some(true) && spec.allowWarnings != Some(false)
            && Get(spec.minEvalScore, 1.0) == 1.0 && Get(spec.requireProvenance, []) == []
  {
  }

  /** A shared policy that asks for evals, and an agent whose own policy asks nothing: clearing the own one
      does not open the gate, it closes it. */
  lemma SharedPolicyResurfaces()
    ensures var shared := Policy(NO_DEMANDS.(requireEvals := Some(true)), map[]);
            var policies := Policies(map["agent" := Policy(NO_DEMANDS, map[])], Some(shared));
            var version := Version("v", "agent", "hash", Active, map[]);
            && RequirePromotion(policies, version, [], "prod", None, false).Ok?
            && RequirePromotion(SetGate(policies, "agent", None).value, version, [], "prod", None, false)
               == Err(PromotionBlocked)
  {
    var shared := Policy(NO_DEMANDS.(requireEvals := Some(true)), map[]);
    var policies := Policies(map["agent" := Policy(NO_DEMANDS, map[])], Some(shared));
    var version := Version("v", "agent", "hash", Active, map[]);
    var gate := ResolveGate(SetGate(policies, "agent", None).value, "prod", "agent").value;
    assert gate.requireEvals;
    assert Lacks(NeedsEvals, gate, version, [], None);
    UnmetMembers(NeedsEvals, gate, version, [], None);
    assert Unmet(ResolveGate(policies, "prod", "agent").value, version, [], None) == [];
  }

  /** A policy that was accepted can be resolved for every environment, and an environment's own
      entry wins over the default one. */
  lemma AcceptedPolicyResolves(policies: Policies, agent: string, policy: Policy, environment: string)
    requires SetGate(policies, agent, Some(policy)).Ok?
    ensures var after := SetGate(policies, agent, Some(policy)).value;
            var gate := ResolveGate(after, environment, agent);
            && gate.Ok?
            && (environment in policy.environments && policy.environments[environment].requireEvals.Some? ==>
                  gate.value.requireEvals == policy.environments[environment].requireEvals.value)
            && (environment !in policy.environments ==> gate == Coerce(policy.defaults))
  {
    assert Merged(policy.defaults, NO_DEMANDS) == policy.defaults;
  }
}
