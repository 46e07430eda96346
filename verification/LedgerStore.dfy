/** The calls on the version ledger, over a store whose documents are rewritten in place. */
module LedgerStore {
  import opened Outcomes
  import opened Texts
  import opened Gates
  import opened Ledger

  class Store {
    var versions: map<VersionId, Version>
    var envs: map<EnvKey, Environment>
    var runs: map<RunId, PinnedRun>
    var evidence: map<VersionId, seq<Attestation>>
    var policies: Policies

    constructor ()
      ensures Read() == Books(map[], map[], map[], map[], Policies(map[], None))
    {
      versions, envs, runs, evidence := map[], map[], map[], map[];
      policies := Policies(map[], None);
    }

    function Read(): Books
      reads this
    {
      Books(versions, envs, runs, evidence, policies)
    }

    /** Every environment document, or one agent's; the directory lists them in any order. */
    method EnvList(agent: Option<string>) returns (out: seq<Environment>)
      ensures forall env :: env in out <==> exists key :: key in envs && envs[key] == env
                                              && (agent.None? || env.agent == agent.value)
    {
      out := [];
      var todo := envs.Keys;
      while todo != {}
        invariant todo <= envs.Keys
        invariant forall env :: env in out <==>
          exists key :: key in envs && key !in todo && envs[key] == env && (agent.None? || env.agent == agent.value)
      {
        var key :| key in todo;
        todo := todo - {key};
        if agent.None? || envs[key].agent == agent.value {
          out := out + [envs[key]];
        }
      }
    }

    /** The runs that still hold a version, found by walking all of them. */
    method FindPinnedRuns(id: VersionId) returns (out: set<RunId>)
      ensures out == PinnedRuns(Read(), id)
    {
      out := {};
      var todo := runs.Keys;
      while todo != {}
        invariant todo <= runs.Keys
        invariant out == PinnedRuns(Read(), id) - todo
      {
        var run :| run in todo;
        todo := todo - {run};
        if runs[run].versionId != Some(id) {
          continue;
        }
        if Terminal(runs[run].status) {
          continue;
        }
        out := out + {run};
      }
    }

    method SetVersionState(id: VersionId, state: VersionState)
      requires id in versions
      modifies this`versions
      ensures versions == old(versions)[id := old(versions)[id].(state := state)]
    {
      versions := versions[id := versions[id].(state := state)];
    }

    method SetCurrentVersion(name: string, agent: string, id: VersionId, actor: Option<string>)
      modifies this`envs
      ensures Read() == SetCurrent(old(Read()), name, agent, id, actor)
    {
      var doc := if (name, agent) in envs then envs[(name, agent)] else Environment(name, agent, None, [], None);
      if Truthy(doc.current) {
        doc := doc.(history := doc.history + [Replaced(doc.current.value, actor)]);
      }
      doc := doc.(current := Some(id), actor := actor);
      envs := envs[(name, agent) := doc];
    }

    /** Recording content that is already there returns the version it has. */
    method CreateVersion(agent: string, bundle: Bundle, newId: VersionId) returns (r: Result<VersionId>)
      modifies this`versions
      ensures agent == "" ==> r == Err(Validation)
      ensures agent != "" && bundle.agent != "" && bundle.agent != agent ==> r == Err(BundleMismatch)
      ensures r.Err? ==> Read() == old(Read())
      ensures agent != "" && (bundle.agent == "" || bundle.agent == agent) ==>
        && r.Ok?
        && RecordedAs(old(Read()), agent, bundle.hash, newId, r.value)
        && (newId !in old(versions) ==> Read() == Recorded(old(Read()), agent, bundle, r.value))
    {
      if agent == "" {
        return Err(Validation);
      }
      if bundle.agent != "" && bundle.agent != agent {
        return Err(BundleMismatch);
      }
      var todo := versions.Keys;
      while todo != {}
        invariant todo <= versions.Keys
        invariant forall id | id in versions && id !in todo :: !(versions[id].agent == agent
                    && versions[id].bundleHash == bundle.hash)
      {
        var id :| id in todo;
        if versions[id].agent == agent && versions[id].bundleHash == bundle.hash {
          return Ok(id);
        }
        todo := todo - {id};
      }
      versions := versions[newId := Version(newId, agent, bundle.hash, Active, bundle.metadata)];
      r := Ok(newId);
    }

    /** Append to a version's log. */
    method Attest(id: VersionId, record: Attestation)
      modifies this`evidence
      ensures evidence == old(evidence)[id := Evidence(old(Read()), id) + [record]]
    {
      var log := if id in evidence then evidence[id] else [];
      evidence := evidence[id := log + [record]];
    }

    method RequireVetting(version: Version, environment: string, actor: Option<string>, force: bool)
      returns (r: Result<()>)
      modifies this`evidence
      ensures var log := Evidence(old(Read()), version.id);
              var vetted := RequirePromotion(policies, version, log, environment, actor, force);
              && r.Ok? == vetted.Ok?
              && (r.Err? ==> vetted.error == r.error && evidence == old(evidence))
              && (r.Ok? ==> evidence == if vetted.value == Evidence(old(Read()), version.id) then old(evidence)
                                        else old(evidence)[version.id := vetted.value])
    {
      var resolved := ResolveGate(policies, environment, version.agent);
      if resolved.Err? {
        return Err(resolved.error);
      }
      var gate := resolved.value;
      var log := if version.id in evidence then evidence[version.id] else [];
      var checks := CheckPromotion(gate, version, log, actor);
      if Blocked(checks) == [] || !gate.Enforced() {
        return Ok(());
      }
      if force {
        Attest(version.id, Override(environment, actor, Blocked(checks)));
        return Ok(());
      }
      r := Err(PromotionBlocked);
    }

    method PromoteVersion(environment: string, agent: string, id: VersionId, actor: Option<string>,
                          gated: bool, force: bool)
      returns (r: Result<()>)
      requires forall id | id in versions :: versions[id].id == id
      modifies this`envs, this`evidence
      ensures (Read(), r) == Promote(old(Read()), environment, agent, id, actor, gated, force)
    {
      var name := EnvName(environment);
      if name.Err? {
        return Err(name.error);
      }
      if id !in versions {
        return Err(VersionNotFound);
      }
      var version := versions[id];
      if version.agent != agent {
        return Err(BundleMismatch);
      }
      if version.state == Retired {
        return Err(VersionRetired);
      }
      if gated {
        var vetted := RequireVetting(version, name.value, actor, force);
        if vetted.Err? {
          return Err(vetted.error);
        }
      }
      SetCurrentVersion(name.value, agent, id, actor);
      r := Ok(());
    }

    method FindTarget(name: string, agent: string, to: Option<VersionId>) returns (r: Result<VersionId>)
      ensures r == RollbackTarget(Read(), name, agent, to)
    {
      if (name, agent) !in envs || !Truthy(envs[(name, agent)].current) {
        return Err(EnvironmentNotFound);
      }
      var env := envs[(name, agent)];
      var target := "";
      if to.Some? {
        target := to.value;
      } else {
        if env.history == [] {
          return Err(VersionNotFound);
        }
        target := env.history[|env.history| - 1].versionId;
      }
      if Some(target) == env.current {
        return Err(Validation);
      }
      r := Ok(target);
    }

    method RollBack(environment: string, agent: string, actor: Option<string>, to: Option<VersionId>)
      returns (r: Result<()>)
      requires forall id | id in versions :: versions[id].id == id
      modifies this`envs, this`evidence
      ensures (Read(), r) == Rollback(old(Read()), environment, agent, actor, to)
    {
      var name := EnvName(environment);
      if name.Err? {
        return Err(name.error);
      }
      var target := FindTarget(name.value, agent, to);
      if target.Err? {
        return Err(target.error);
      }
      r := PromoteVersion(name.value, agent, target.value, actor, false, false);
    }

    /** Fails closed while an environment points at the version or a live run is pinned to it. */
    method RetireVersion(id: VersionId, force: bool) returns (r: Result<()>)
      modifies this`versions
      ensures (Read(), r) == Retire(old(Read()), id, force)
    {
      if id !in versions {
        return Err(VersionNotFound);
      }
      if versions[id].state == Retired {
        return Ok(());
      }
      if !force {
        var own := EnvList(Some(versions[id].agent));
        for i := 0 to |own|
          invariant versions == old(versions)
          invariant forall k | 0 <= k < i :: own[k].current != Some(id)
        {
          if own[i].current == Some(id) {
            assert own[i] in own;
            return Err(VersionInUse);
          }
        }
        assert !CurrentForItsAgent(Read(), id) by {
          forall key | key in envs && envs[key].agent == versions[id].agent ensures envs[key].current != Some(id) {
            assert envs[key] in own;
          }
        }
        var live := FindPinnedRuns(id);
        if live != {} {
          return Err(VersionInUse);
        }
      }
      SetVersionState(id, Retired);
      r := Ok(());
    }
  }
}
