/** What the calls on the ledger answer, told by the policy, the log and the books as they are written. */
module PromotionOutcomes {
  import opened Outcomes
  import opened Texts
  import opened Gates
  import opened Ledger
  import LedgerRuns

  // ---- the gate in force -----------------------------------------------------------

  function Setting<T>(entry: Option<T>, defaults: Option<T>, fallback: T): T {
    match (entry, defaults)
    case (Some(value), _) => value
    case (None, Some(value)) => value
    case (None, None) => fallback
  }

  /** The gate demands what the environment's entry says, or else the default entry, or else nothing; an entry
      that is unknown in part, or asks for a score that cannot be reached, is refused. */
  lemma GateInForce(policies: Policies, environment: string, agent: string, policy: Policy)
    requires agent != "" && agent in policies.own ==> policy == policies.own[agent]
    requires agent == "" || agent !in policies.own ==>
               policy == if policies.shared.Some? then policies.shared.value else Policy(NO_DEMANDS, map[])
    ensures policy.Malformed? ==> ResolveGate(policies, environment, agent) == Err(PromotionBlocked)
    ensures policy.Policy? ==>
              var entry := if environment in policy.environments then policy.environments[environment] else NO_DEMANDS;
              var defaults, gate := policy.defaults, ResolveGate(policies, environment, agent);
              var least := Setting(entry.minEvalScore, defaults.minEvalScore, 1.0);
              if entry.unrecognised != {} || defaults.unrecognised != {} || least < 0.0 || least > 1.0
              then gate == Err(Validation)
              else
                && gate.Ok?
                && gate.value.requireReadiness == Setting(entry.requireReadiness, defaults.requireReadiness, false)
                && gate.value.requireEvals == Setting(entry.requireEvals, defaults.requireEvals, false)
                && gate.value.minEvalScore == least
                && gate.value.allowWarnings == Setting(entry.allowWarnings, defaults.allowWarnings, true)
                && gate.value.requireActor == Setting(entry.requireActor, defaults.requireActor, false)
                && gate.value.requireProvenance == Setting(entry.requireProvenance, defaults.requireProvenance, [])
  {
  }

  // ---- what blocks a promotion -----------------------------------------------------

  ghost predicate LastReadiness(records: seq<Attestation>, i: nat) {
    i < |records| && records[i].Readiness? && forall j | i < j < |records| :: !records[j].Readiness?
  }

  ghost predicate LastEvals(records: seq<Attestation>, i: nat) {
    i < |records| && records[i].Evals? && forall j | i < j < |records| :: !records[j].Evals?
  }

  /** No readiness report, or the last one failed, is another bundle's, or warns where that is not allowed. */
  ghost predicate ReadinessWanting(records: seq<Attestation>, bundleHash: string, allowWarnings: bool) {
    || (forall i | 0 <= i < |records| :: !records[i].Readiness?)
    || (exists i: nat :: LastReadiness(records, i)
          && (!records[i].ok
              || (records[i].bundleHash.Some? && records[i].bundleHash.value !in {"", bundleHash})
              || (!allowWarnings && records[i].warnings > 0)))
  }

  /** No eval report, or the last one failed, had no cases, or scored too low. */
  ghost predicate EvalsWanting(records: seq<Attestation>, least: real) {
    || (forall i | 0 <= i < |records| :: !records[i].Evals?)
    || (exists i: nat :: LastEvals(records, i)
          && (!records[i].ok || !records[i].hasEvals
              || (records[i].score.Some? && records[i].score.value < least)))
  }

  ghost predicate ActorWanting(actor: Option<string>) {
    actor.None? || forall c | c in actor.value :: c in " \t\n\r"
  }

  ghost predicate ProvenanceWanting(metadata: map<string, string>, keys: seq<string>) {
    exists key :: key in keys && (key !in metadata || metadata[key] == "")
  }

  ghost predicate Wanting(gate: Gate, version: Version, records: seq<Attestation>, actor: Option<string>) {
    || (gate.requireReadiness && ReadinessWanting(records, version.bundleHash, gate.allowWarnings))
    || (gate.requireEvals && EvalsWanting(records, gate.minEvalScore))
    || (gate.requireActor && ActorWanting(actor))
    || ProvenanceWanting(version.metadata, gate.requireProvenance)
  }

  lemma ReadinessLackedExactly(gate: Gate, version: Version, records: seq<Attestation>, actor: Option<string>)
    ensures Lacks(NeedsReadiness, gate, version, records, actor) <==>
            gate.requireReadiness && ReadinessWanting(records, version.bundleHash, gate.allowWarnings)
  {
    LatestReadinessIs(records);
    if LatestReadiness(records).Some? {
      var i: nat :| Newest(records, i) && records[i] == LatestReadiness(records).value && records[i].Readiness?;
      assert LastReadiness(records, i);
      assert forall k: nat :: LastReadiness(records, k) ==> k == i;
    }
  }

  lemma EvalsLackedExactly(gate: Gate, version: Version, records: seq<Attestation>, actor: Option<string>)
    ensures Lacks(NeedsEvals, gate, version, records, actor) <==>
            gate.requireEvals && EvalsWanting(records, gate.minEvalScore)
  {
    LatestEvalsIs(records);
    if LatestEvals(records).Some? {
      var i: nat :| Newest(records, i) && records[i] == LatestEvals(records).value && records[i].Evals?;
      assert LastEvals(records, i);
      assert forall k: nat :: LastEvals(records, k) ==> k == i;
    }
  }

  lemma OthersLackedExactly(gate: Gate, version: Version, records: seq<Attestation>, actor: Option<string>)
    ensures Lacks(NeedsActor, gate, version, records, actor) <==> gate.requireActor && ActorWanting(actor)
    ensures Lacks(NeedsProvenance, gate, version, records, actor) <==>
            ProvenanceWanting(version.metadata, gate.requireProvenance)
  {
    if actor.Some? {
      StripsToNothingExactly(actor.value);
    }
    MissingIs(version, gate.requireProvenance);
  }

  lemma UnmetIsWanting(gate: Gate, version: Version, records: seq<Attestation>, actor: Option<string>)
    ensures Unmet(gate, version, records, actor) != [] <==> Wanting(gate, version, records, actor)
    ensures Unmet(gate, version, records, actor) != [] ==> gate.Enforced()
  {
    ReadinessLackedExactly(gate, version, records, actor);
    EvalsLackedExactly(gate, version, records, actor);
    OthersLackedExactly(gate, version, records, actor);
    hide ReadinessWanting, EvalsWanting, ActorWanting, ProvenanceWanting;
  }

  /** A gated promotion that is not forced is refused exactly when something the gate demands is wanting: the
      last report of a kind decides, a missing one counts as a bad one. Refused, it changes nothing; accepted,
      it moves the pointer. */
  lemma BlockedExactly(books: Books, name: string, agent: string, id: VersionId, actor: Option<string>, gate: Gate)
    requires id in books.versions && books.versions[id].agent == agent && books.versions[id].state == Active
    requires ResolveGate(books.policies, name, agent) == Ok(gate)
    ensures var (after, r) := PromoteInto(books, name, agent, id, actor, true, false);
            if Wanting(gate, books.versions[id], Evidence(books, id), actor)
            then after == books && r == Err(PromotionBlocked)
            else
              && r == Ok(()) && after.evidence == books.evidence
              && (name, agent) in after.envs && after.envs[(name, agent)].current == Some(id)
              && after.envs[(name, agent)].actor == actor
  {
    hide Wanting, Unmet, ResolveGate;
    UnmetIsWanting(gate, books.versions[id], Evidence(books, id), actor);
  }

  /** Forced, it is never refused, and an override on record says for which environment, by whom and past what. */
  lemma ForcedLeavesAnOverride(books: Books, name: string, agent: string, id: VersionId, actor: Option<string>,
                               gate: Gate)
    requires id in books.versions && books.versions[id].agent == agent && books.versions[id].state == Active
    requires ResolveGate(books.policies, name, agent) == Ok(gate)
    ensures var (after, r) := PromoteInto(books, name, agent, id, actor, true, true);
            && r == Ok(()) && (name, agent) in after.envs && after.envs[(name, agent)].current == Some(id)
            && if Wanting(gate, books.versions[id], Evidence(books, id), actor)
               then
                 exists past: seq<Requirement> ::
                   && past != [] && Evidence(after, id) == Evidence(books, id) + [Override(name, actor, past)]
                   && forall need :: need in past <==>
                        Demands(gate, need) && !Met(need, gate, books.versions[id], Evidence(books, id), actor)
               else after.evidence == books.evidence
  {
    var version, log := books.versions[id], Evidence(books, id);
    hide Wanting, Unmet, ResolveGate, Demands, Met;
    UnmetIsWanting(gate, version, log, actor);
    UnmetNeeds(gate, version, log, actor);
    var past := Unmet(gate, version, log, actor);
    if past != [] {
      var after := PromoteInto(books, name, agent, id, actor, true, true).0;
      assert Evidence(after, id) == log + [Override(name, actor, past)];
    }
  }

  /** An agent whose policy asks for evals at 0.9: a failed run that scored 0.2 is blocked, a green one that
      scored 1.0 goes through. */
  lemma FailedEvalsAreBlocked(agent: string, id: VersionId)
    requires agent != ""
    ensures var policy := Policy(NO_DEMANDS.(requireEvals := Some(true), minEvalScore := Some(0.9)), map[]);
            var version := Version(id, agent, "hash", Active, map[]);
            var failed := Books(map[id := version], map[], map[], map[id := [Evals(false, true, Some(0.2))]],
                                Policies(map[agent := policy], None));
            var green := failed.(evidence := map[id := [Evals(true, true, Some(1.0))]]);
            && PromoteInto(failed, "prod", agent, id, None, true, false).1 == Err(PromotionBlocked)
            && PromoteInto(green, "prod", agent, id, None, true, false).1 == Ok(())
  {
    var policy := Policy(NO_DEMANDS.(requireEvals := Some(true), minEvalScore := Some(0.9)), map[]);
    var version := Version(id, agent, "hash", Active, map[]);
    var failed := Books(map[id := version], map[], map[], map[id := [Evals(false, true, Some(0.2))]],
                        Policies(map[agent := policy], None));
    var green := failed.(evidence := map[id := [Evals(true, true, Some(1.0))]]);
    GateInForce(failed.policies, "prod", agent, policy);
    var gate := ResolveGate(failed.policies, "prod", agent).value;
    hide PromoteInto, ResolveGate;
    BlockedExactly(failed, "prod", agent, id, None, gate);
    BlockedExactly(green, "prod", agent, id, None, gate);
    assert LastEvals(Evidence(failed, id), 0) && LastEvals(Evidence(green, id), 0);
  }

  /** An environment needs a name that is not blank and holds no slash; blanks around it do not count. */
  lemma NamedExactly(books: Books, environment: string, agent: string, id: VersionId, actor: Option<string>,
                     gated: bool, force: bool)
    ensures var blank := forall c | c in environment :: c in " \t\n\r";
            if blank || '/' in environment
            then Promote(books, environment, agent, id, actor, gated, force) == (books, Err(Validation))
            else
              && Promote(books, environment, agent, id, actor, gated, force) ==
                 PromoteInto(books, Strip(environment), agent, id, actor, gated, force)
              && Promote(books, Strip(environment), agent, id, actor, gated, force) ==
                 Promote(books, environment, agent, id, actor, gated, force)
  {
    StripsToNothingExactly(environment);
    StripKeeps(environment, '/');
    StripTwice(environment);
    hide PromoteInto, Strip;
  }

  // ---- new versions ----------------------------------------------------------------

  /** New content is recorded active, with the facts its bundle came with: those are the provenance a gate
      that asks for nothing else looks at. */
  lemma NewVersionHoldsItsFacts(books: Books, agent: string, bundle: Bundle, newId: VersionId, id: VersionId,
                                name: string, actor: Option<string>, gate: Gate)
    requires newId !in books.versions && RecordedAs(books, agent, bundle.hash, newId, id) && id !in books.versions
    requires ResolveGate(books.policies, name, agent) == Ok(gate)
    requires !gate.requireReadiness && !gate.requireEvals && !gate.requireActor
    ensures var after := Recorded(books, agent, bundle, id);
            && id == newId && id in after.versions
            && after.versions[id].agent == agent && after.versions[id].bundleHash == bundle.hash
            && after.versions[id].state == Active
            && PromoteInto(after, name, agent, id, actor, true, false).1 ==
                 if exists key :: key in gate.requireProvenance
                                  && (key !in bundle.metadata || bundle.metadata[key] == "")
                 then Err(PromotionBlocked) else Ok(())
  {
    var after := Recorded(books, agent, bundle, id);
    hide PromoteInto, ResolveGate;
    BlockedExactly(after, name, agent, id, actor, gate);
  }

  // ---- retirement ------------------------------------------------------------------

  /** A version is in use exactly while an environment of its agent points at it, or a run that is queued,
      under way or waiting for an approval is pinned to it; then it is not retired. */
  lemma RetireRefusedExactly(books: Books, id: VersionId)
    requires id in books.versions && books.versions[id].state == Active
    ensures var (after, r) := Retire(books, id, false);
            if (exists key :: key in books.envs && books.envs[key].agent == books.versions[id].agent
                              && books.envs[key].current == Some(id))
               || (exists run :: run in books.runs && books.runs[run].versionId == Some(id)
                                 && books.runs[run].status in {Queued, Executing, WaitingApproval})
            then after == books && r == Err(VersionInUse)
            else r == Ok(()) && after.versions == books.versions[id := books.versions[id].(state := Retired)]
  {
    if run :| run in books.runs && books.runs[run].versionId == Some(id)
              && books.runs[run].status in {Queued, Executing, WaitingApproval} {
      assert run in PinnedRuns(books, id);
    }
  }

  /** A run started from an environment is queued for its agent and pinned to the version the environment points
      at: until the run is over that version is not retired, wherever the pointer goes meanwhile. */
  lemma StartedRunHoldsItsVersion(books: Books, run: RunId, environment: string, agent: string, later: Books)
    requires (environment, agent) in books.envs && Truthy(books.envs[(environment, agent)].current)
    requires var id := books.envs[(environment, agent)].current.value;
             id in books.versions && books.versions[id].id == id && id in later.versions
             && later.versions[id].state == Active
    ensures var id := books.envs[(environment, agent)].current.value;
            var started := LedgerRuns.Next(books, LedgerRuns.StartCall(run, environment, agent)).runs;
            && started == books.runs[run := PinnedRun(run, agent, Some(id), Queued)]
            && (run in later.runs && later.runs[run].versionId == started[run].versionId
                && later.runs[run].status in {Queued, Executing, WaitingApproval} ==>
                  Retire(later, id, false) == (later, Err(VersionInUse)))
  {
    RetireRefusedExactly(later, books.envs[(environment, agent)].current.value);
    hide Retire;
  }

  /** A version that is retired by force while an environment points at it stops that environment: no run starts
      there until the pointer is moved, and moving it to another active version is all it takes. */
  lemma ForcedRetireStopsRuns(books: Books, name: string, agent: string, id: VersionId, other: VersionId,
                              actor: Option<string>)
    requires EnvName(name) == Ok(name) && id != "" && other != "" && other != id
    requires (name, agent) in books.envs && books.envs[(name, agent)].current == Some(id)
    requires id in books.versions && books.versions[id].state == Active
    requires other in books.versions && books.versions[other].agent == agent && books.versions[other].state == Active
    ensures ResolveForRun(books, name, agent) == Ok(books.versions[id])
    ensures var after := Retire(books, id, true).0;
            && ResolveForRun(after, name, agent) == Err(VersionRetired)
            && ResolveForRun(Promote(after, name, agent, other, actor, false, false).0, name, agent)
               == Ok(books.versions[other])
  {
    hide EnvName;
  }

  // ---- rollback --------------------------------------------------------------------

  /** A rollback goes where it is told, or else to the last version of the history; it needs a pointer to move
      and an active version of the agent to move it to, and asks for no evidence. */
  lemma RollbackGoesWhereTold(books: Books, environment: string, agent: string, actor: Option<string>,
                              to: Option<VersionId>)
    requires EnvName(environment).Ok?
    ensures var key := (EnvName(environment).value, agent);
            var (after, r) := Rollback(books, environment, agent, actor, to);
            if key !in books.envs || !Truthy(books.envs[key].current) then
              after == books && r == Err(EnvironmentNotFound)
            else
              var env := books.envs[key];
              if to.None? && env.history == [] then after == books && r == Err(VersionNotFound)
              else
                var target := if to.Some? then to.value else env.history[|env.history| - 1].versionId;
                if env.current == Some(target) then after == books && r == Err(Validation)
                else if target !in books.versions then after == books && r == Err(VersionNotFound)
                else if books.versions[target].agent != agent then after == books && r == Err(BundleMismatch)
                else if books.versions[target].state == Retired then after == books && r == Err(VersionRetired)
                else
                  && r == Ok(()) && after.evidence == books.evidence && after.versions == books.versions
                  && key in after.envs && after.envs[key].current == Some(target) && after.envs[key].actor == actor
                  && after.envs[key].history == env.history + [Replaced(env.current.value, actor)]
  {
    LedgerRuns.RollbackPromotes(books, environment, agent, actor, to);
    hide Rollback, EnvName;
  }
}
