/** Whole runs of the version ledger: any sequence of deploys, promotions, rollbacks, retirements,
    run starts and status changes, from an empty store. */
module LedgerRuns {
  import opened Outcomes
  import opened Texts
  import opened Gates
  import opened Ledger

  datatype Call =
    | CreateCall(agent: string, bundle: Bundle, newId: VersionId, recorded: VersionId,
                 into: Option<string>, actor: Option<string>, force: bool)
    | PromoteCall(environment: string, agent: string, id: VersionId, actor: Option<string>, force: bool)
    | RollbackCall(environment: string, agent: string, actor: Option<string>, to: Option<VersionId>)
    | RetireCall(id: VersionId, force: bool)
    /** A run started from an environment's pointer, as the control plane does. */
    | StartCall(run: RunId, environment: string, agent: string)
    /** A run pinned to whatever version the caller was holding. */
    | StartPinnedCall(run: RunId, agent: string, version: Option<VersionId>)
    | StatusCall(run: RunId, status: RunStatus)
    | AttestCall(id: VersionId, record: Attestation)
    | SetGateCall(agent: string, policy: Option<Policy>)

  predicate AcceptsBundle(agent: string, bundle: Bundle) {
    agent != "" && (bundle.agent == "" || bundle.agent == agent)
  }

  function Next(books: Books, call: Call): Books {
    match call
    case CreateCall(agent, bundle, _, recorded, into, actor, force) =>
      if !AcceptsBundle(agent, bundle) then books
      else
        var after := Recorded(books, agent, bundle, recorded);
        if into.None? then after else Promote(after, into.value, agent, recorded, actor, true, force).0
    case PromoteCall(environment, agent, id, actor, force) =>
      Promote(books, environment, agent, id, actor, true, force).0
    case RollbackCall(environment, agent, actor, to) => Rollback(books, environment, agent, actor, to).0
    case RetireCall(id, force) => Retire(books, id, force).0
    case StartCall(run, environment, agent) =>
      var current := CurrentVersion(books, environment, agent);
      if current.Err? then books
      else StartRun(books, run, agent, if current.value.Some? then Some(current.value.value.id) else None)
    case StartPinnedCall(run, agent, version) => StartRun(books, run, agent, version)
    case StatusCall(run, status) =>
      if run in books.runs then books.(runs := books.runs[run := books.runs[run].(status := status)]) else books
    case AttestCall(id, record) => books.(evidence := books.evidence[id := Evidence(books, id) + [record]])
    case SetGateCall(agent, policy) =>
      var r := SetGate(books.policies, agent, policy);
      if r.Ok? then books.(policies := r.value) else books
  }

  /** Generated ids are new, and a terminal run stays as it is. */
  ghost predicate Possible(books: Books, call: Call) {
    match call
    case CreateCall(agent, bundle, newId, recorded, _, _, _) =>
      newId !in books.versions && newId != "" && RecordedAs(books, agent, bundle.hash, newId, recorded)
    case StartCall(run, _, _) => run !in books.runs
    case StartPinnedCall(run, _, _) => run !in books.runs
    case StatusCall(run, status) => run in books.runs && Terminal(books.runs[run].status) ==>
      status == books.runs[run].status
    case AttestCall(_, record) => !record.Override?
    case _ => true
  }

  ghost predicate Run(states: seq<Books>, calls: seq<Call>) {
    && |states| == |calls| + 1
    && states[0] == Books(map[], map[], map[], map[], Policies(map[], None))
    && forall i | 0 <= i < |calls| :: Possible(states[i], calls[i]) && states[i + 1] == Next(states[i], calls[i])
  }

  // ---- what promotion does -----------------------------------------------------------

  lemma RefusedPromotionChangesNothing(books: Books, name: string, agent: string, id: VersionId,
                                       actor: Option<string>, gated: bool, force: bool)
    requires PromoteInto(books, name, agent, id, actor, gated, force).1.Err?
    ensures PromoteInto(books, name, agent, id, actor, gated, force).0 == books
  {
  }

  /** An accepted promotion names an active version of the agent and moves one pointer; versions, runs
      and policies stay, and logs only grow. */
  lemma AcceptedPromotion(books: Books, name: string, agent: string, id: VersionId, actor: Option<string>,
                          gated: bool, force: bool)
    requires PromoteInto(books, name, agent, id, actor, gated, force).1.Ok?
    ensures id in books.versions && books.versions[id].agent == agent && books.versions[id].state == Active
    ensures var after := PromoteInto(books, name, agent, id, actor, gated, force).0;
            && after.versions == books.versions && after.runs == books.runs && after.policies == books.policies
            && after.envs == SetCurrent(books, name, agent, id, actor).envs
  {
  }

  /** Without a gate, being an active version of the agent is all it takes. */
  lemma UngatedPromotion(books: Books, name: string, agent: string, id: VersionId, actor: Option<string>)
    ensures PromoteInto(books, name, agent, id, actor, false, false).1.Ok? <==>
            id in books.versions && books.versions[id].agent == agent && books.versions[id].state == Active
  {
  }

  /** ... and was vetted, if it was gated. */
  lemma GatedPromotionIsVetted(books: Books, name: string, agent: string, id: VersionId, actor: Option<string>,
                               force: bool)
    requires PromoteInto(books, name, agent, id, actor, true, force).1.Ok?
    ensures id in books.versions
    ensures var after := PromoteInto(books, name, agent, id, actor, true, force).0;
            Vetted(books.policies, books.versions[id], Evidence(books, id), name, actor, Evidence(after, id))
  {
    var version, log := books.versions[id], Evidence(books, id);
    AdmittedIsVetted(books.policies, version, log, name, actor, force);
    var vetted := RequirePromotion(books.policies, version, log, name, actor, force);
    assert Evidence(WithEvidence(books, id, vetted.value), id) == vetted.value;
  }

  lemma EnvNameTwice(environment: string)
    requires EnvName(environment).Ok?
    ensures EnvName(EnvName(environment).value) == EnvName(environment)
  {
    StripTwice(environment);
  }

  /** A stripped name is its own name, so a rollback promotes into the environment it looked up. */
  lemma RollbackPromotes(books: Books, environment: string, agent: string, actor: Option<string>, to: Option<VersionId>)
    requires EnvName(environment).Ok?
    ensures var name := EnvName(environment).value;
            var target := RollbackTarget(books, name, agent, to);
            Rollback(books, environment, agent, actor, to) ==
              if target.Err? then (books, Err(target.error))
              else PromoteInto(books, name, agent, target.value, actor, false, false)
  {
    EnvNameTwice(environment);
  }

  // ---- invariants --------------------------------------------------------------------

  ghost predicate PointerInv(versions: map<VersionId, Version>, key: EnvKey, env: Environment) {
    && env.name == key.0 && env.agent == key.1
    && env.current.Some? && env.current.value in versions
    && versions[env.current.value].agent == key.1
  }

  /** What no call can break: ids, one version for each content, and pointers into the agent's own versions. */
  ghost predicate BaseInv(books: Books) {
    && (forall id | id in books.versions :: id != "" && books.versions[id].id == id)
    && (forall a, b | a in books.versions && b in books.versions
          && books.versions[a].agent == books.versions[b].agent
            && books.versions[a].bundleHash == books.versions[b].bundleHash :: a == b)
    && (forall key | key in books.envs :: PointerInv(books.versions, key, books.envs[key]))
  }

  /** What retirement must respect: pointers at active versions, live runs on unretired ones. */
  ghost predicate ActiveInv(books: Books) {
    && (forall key | key in books.envs ::
          books.envs[key].current.Some? && books.envs[key].current.value in books.versions ==>
          books.versions[books.envs[key].current.value].state == Active)
    && (forall run | run in books.runs && !Terminal(books.runs[run].status) :: PinInv(books, books.runs[run].versionId))
  }

  ghost predicate PinInv(books: Books, pin: Option<VersionId>) {
    pin.Some? && pin.value in books.versions ==> books.versions[pin.value].state == Active
  }

  /** The operator overrides the invariant leaves out: a forced retirement, and a run started on a
      version its caller resolved earlier and that has been retired since. */
  ghost predicate Orderly(books: Books, call: Call) {
    && (call.RetireCall? ==> !call.force)
    && (call.StartPinnedCall? ==> PinInv(books, call.version))
  }

  lemma SetCurrentKeepsBase(books: Books, name: string, agent: string, id: VersionId, actor: Option<string>)
    requires BaseInv(books) && id in books.versions && books.versions[id].agent == agent
    ensures BaseInv(SetCurrent(books, name, agent, id, actor))
  {
  }

  lemma RecordedKeepsBase(books: Books, agent: string, bundle: Bundle, newId: VersionId, id: VersionId)
    requires BaseInv(books) && newId !in books.versions && newId != ""
    requires RecordedAs(books, agent, bundle.hash, newId, id)
    ensures BaseInv(Recorded(books, agent, bundle, id))
    ensures id in Recorded(books, agent, bundle, id).versions
  {
  }

  /** A version is recorded active, so a pin that named it in advance does no harm. */
  lemma RecordedKeepsActive(books: Books, agent: string, bundle: Bundle, id: VersionId)
    requires ActiveInv(books)
    ensures ActiveInv(Recorded(books, agent, bundle, id))
  {
    var after := Recorded(books, agent, bundle, id);
    forall run | run in books.runs
      && !Terminal(books.runs[run].status) ensures PinInv(after, books.runs[run].versionId) {
      assert PinInv(books, books.runs[run].versionId);
    }
  }

  lemma PromoteKeepsInv(books: Books, name: string, agent: string, id: VersionId, actor: Option<string>,
                        gated: bool, force: bool)
    requires BaseInv(books)
    ensures BaseInv(PromoteInto(books, name, agent, id, actor, gated, force).0)
    ensures ActiveInv(books) ==> ActiveInv(PromoteInto(books, name, agent, id, actor, gated, force).0)
  {
    var (after, r) := PromoteInto(books, name, agent, id, actor, gated, force);
    if r.Err? {
      RefusedPromotionChangesNothing(books, name, agent, id, actor, gated, force);
    } else {
      AcceptedPromotion(books, name, agent, id, actor, gated, force);
      SetCurrentKeepsBase(books, name, agent, id, actor);
      forall key | key in after.envs && key != (name, agent) ensures key in books.envs
        && after.envs[key] == books.envs[key] {
      }
    }
  }

  lemma RetireKeepsActive(books: Books, id: VersionId)
    requires BaseInv(books) && ActiveInv(books) && id in books.versions
    requires !CurrentForItsAgent(books, id) && PinnedRuns(books, id) == {}
    ensures ActiveInv(books.(versions := books.versions[id := books.versions[id].(state := Retired)]))
  {
    hide Terminal;
    var after := books.(versions := books.versions[id := books.versions[id].(state := Retired)]);
    forall run | run in after.runs && !Terminal(after.runs[run].status)
      ensures PinInv(after, after.runs[run].versionId)
    {
      assert run !in PinnedRuns(books, id);
      assert PinInv(books, books.runs[run].versionId);
    }
    forall key | key in after.envs
      ensures after.envs[key].current != Some(id)
    {
      assert PointerInv(books.versions, key, books.envs[key]);
    }
  }

  lemma RetireKeepsInv(books: Books, id: VersionId, force: bool)
    requires BaseInv(books)
    ensures BaseInv(Retire(books, id, force).0)
    ensures ActiveInv(books) && !force ==> ActiveInv(Retire(books, id, force).0)
  {
    hide ActiveInv, PinnedRuns, CurrentForItsAgent;
    var (after, r) := Retire(books, id, force);
    if r.Ok? && after != books && ActiveInv(books) && !force {
      RetireKeepsActive(books, id);
    }
  }

  lemma CreateKeepsInv(books: Books, call: Call)
    requires call.CreateCall? && BaseInv(books) && Possible(books, call)
    ensures BaseInv(Next(books, call))
    ensures ActiveInv(books) ==> ActiveInv(Next(books, call))
  {
    hide PromoteInto, EnvName, RecordedAs, BaseInv, ActiveInv;
    if AcceptsBundle(call.agent, call.bundle) {
      var after := Recorded(books, call.agent, call.bundle, call.recorded);
      RecordedKeepsBase(books, call.agent, call.bundle, call.newId, call.recorded);
      if ActiveInv(books) {
        RecordedKeepsActive(books, call.agent, call.bundle, call.recorded);
      }
      if call.into.Some? && EnvName(call.into.value).Ok? {
        PromoteKeepsInv(after, EnvName(call.into.value).value, call.agent, call.recorded, call.actor, true, call.force);
      }
    }
  }

  lemma RollbackKeepsInv(books: Books, call: Call)
    requires call.RollbackCall? && BaseInv(books)
    ensures BaseInv(Next(books, call))
    ensures ActiveInv(books) ==> ActiveInv(Next(books, call))
  {
    hide PromoteInto, BaseInv, ActiveInv;
    if EnvName(call.environment).Ok? {
      var name := EnvName(call.environment).value;
      RollbackPromotes(books, call.environment, call.agent, call.actor, call.to);
      if RollbackTarget(books, name, call.agent, call.to).Ok? {
        var target := RollbackTarget(books, name, call.agent, call.to).value;
        PromoteKeepsInv(books, name, call.agent, target, call.actor, false, false);
      }
    }
  }

  lemma BaseFollowsVersions(a: Books, b: Books)
    requires BaseInv(a) && b.versions == a.versions && b.envs == a.envs
    ensures BaseInv(b)
  {
  }

  lemma ActiveFollowsBooks(a: Books, b: Books)
    requires ActiveInv(a) && b.versions == a.versions && b.envs == a.envs && b.runs == a.runs
    ensures ActiveInv(b)
  {
    forall run | run in b.runs && !Terminal(b.runs[run].status)
      ensures PinInv(b, b.runs[run].versionId)
    {
      assert PinInv(a, a.runs[run].versionId);
    }
  }

  /** One run is written: started, or moved to another status. */
  lemma RunKeepsActive(books: Books, run: RunId, written: PinnedRun)
    requires ActiveInv(books) && (Terminal(written.status) || PinInv(books, written.versionId))
    ensures ActiveInv(books.(runs := books.runs[run := written]))
  {
    hide Terminal;
    var after := books.(runs := books.runs[run := written]);
    forall other | other in after.runs && !Terminal(after.runs[other].status)
      ensures PinInv(after, after.runs[other].versionId)
    {
      if other != run {
        assert PinInv(books, books.runs[other].versionId);
      }
    }
  }

  lemma StartCallKeepsActive(books: Books, call: Call)
    requires call.StartCall? && BaseInv(books) && ActiveInv(books)
    ensures ActiveInv(Next(books, call))
  {
    var key := (call.environment, call.agent);
    if key in books.envs {
      assert PointerInv(books.versions, key, books.envs[key]);
    }
    var current := CurrentVersion(books, call.environment, call.agent);
    if current.Ok? {
      var pin := if current.value.Some? then Some(current.value.value.id) else None;
      assert PinInv(books, pin);
      hide BaseInv, ActiveInv, CurrentVersion, PinInv;
      RunKeepsActive(books, call.run, PinnedRun(call.run, call.agent, pin, Queued));
    }
  }

  lemma RunCallsKeepInv(books: Books, call: Call)
    requires BaseInv(books) && Possible(books, call)
    requires call.StartCall? || call.StartPinnedCall? || call.StatusCall? || call.AttestCall? || call.SetGateCall?
    ensures BaseInv(Next(books, call))
    ensures ActiveInv(books) && Orderly(books, call) ==> ActiveInv(Next(books, call))
  {
    hide SetGate, EnvName, BaseInv;
    BaseFollowsVersions(books, Next(books, call));
    if ActiveInv(books) && Orderly(books, call) {
      if call.StatusCall? && call.run in books.runs {
        var run := books.runs[call.run];
        assert Terminal(run.status) || PinInv(books, run.versionId);
      }
      hide ActiveInv, PinInv;
      match call
      case StartCall(_, _, _) => StartCallKeepsActive(books, call);
      case StartPinnedCall(run, agent, version) => RunKeepsActive(books, run, PinnedRun(run, agent, version, Queued));
      case StatusCall(run, status) =>
        if run in books.runs {
          RunKeepsActive(books, run, books.runs[run].(status := status));
        }
      case _ => ActiveFollowsBooks(books, Next(books, call));
    }
  }

  lemma NextKeepsInv(books: Books, call: Call)
    requires BaseInv(books) && Possible(books, call)
    ensures BaseInv(Next(books, call))
    ensures ActiveInv(books) && Orderly(books, call) ==> ActiveInv(Next(books, call))
  {
    hide PromoteInto, BaseInv, ActiveInv, EnvName;
    match call
    case CreateCall(_, _, _, _, _, _, _) => CreateKeepsInv(books, call);
    case PromoteCall(environment, agent, id, actor, force) =>
      if EnvName(environment).Ok? {
        PromoteKeepsInv(books, EnvName(environment).value, agent, id, actor, true, force);
      }
    case RollbackCall(_, _, _, _) => RollbackKeepsInv(books, call);
    case RetireCall(id, force) => RetireKeepsInv(books, id, force);
    case _ => RunCallsKeepInv(books, call);
  }

  lemma StepKeepsInv(states: seq<Books>, calls: seq<Call>, n: nat)
    requires Run(states, calls) && n < |calls| && BaseInv(states[n])
    ensures BaseInv(states[n + 1])
    ensures ActiveInv(states[n]) && Orderly(states[n], calls[n]) ==> ActiveInv(states[n + 1])
  {
    hide BaseInv, ActiveInv;
    NextKeepsInv(states[n], calls[n]);
  }

  lemma {:induction false} RunKeepsBase(states: seq<Books>, calls: seq<Call>, n: nat)
    requires Run(states, calls) && n < |states|
    ensures BaseInv(states[n])
  {
    hide ActiveInv, Next, Possible, Orderly;
    if n > 0 {
      hide BaseInv;
      RunKeepsBase(states, calls, n - 1);
      StepKeepsInv(states, calls, n - 1);
    }
  }

  lemma {:induction false} OrderlyRunKeepsActive(states: seq<Books>, calls: seq<Call>, n: nat)
    requires Run(states, calls) && n < |states|
    requires forall i | 0 <= i < n :: Orderly(states[i], calls[i])
    ensures ActiveInv(states[n])
  {
    hide BaseInv, Next, Possible;
    if n > 0 {
      hide ActiveInv;
      OrderlyRunKeepsActive(states, calls, n - 1);
      RunKeepsBase(states, calls, n - 1);
      assert Orderly(states[n - 1], calls[n - 1]);
      hide Orderly;
      StepKeepsInv(states, calls, n - 1);
    }
  }

  /** Over every run each content has one version and each pointer names an existing version of its own
      agent; over every orderly run that version is active, and no live run is pinned to a retired one. */
  lemma RunKeepsInv(states: seq<Books>, calls: seq<Call>, n: nat)
    requires Run(states, calls) && n < |states|
    ensures BaseInv(states[n])
    ensures (forall i | 0 <= i < n :: Orderly(states[i], calls[i])) ==> ActiveInv(states[n])
  {
    hide BaseInv, ActiveInv, Next, Possible, Orderly;
    RunKeepsBase(states, calls, n);
    if forall i | 0 <= i < n :: Orderly(states[i], calls[i]) {
      OrderlyRunKeepsActive(states, calls, n);
    }
  }

  /** While the invariants hold, an environment that has a pointer can always start a run: neither the
      missing nor the retired version that `resolve_for_run` guards against can come up. */
  lemma PointersResolve(books: Books, environment: string, agent: string)
    requires BaseInv(books) && ActiveInv(books) && EnvName(environment).Ok?
    ensures var r := ResolveForRun(books, environment, agent);
            && (r.Ok? <==> (EnvName(environment).value, agent) in books.envs)
            && (r.Ok? ==> r.value.agent == agent && r.value.state == Active
                           && books.envs[(EnvName(environment).value, agent)].current == Some(r.value.id))
            && (r.Err? ==> r.error == EnvironmentNotFound)
  {
    var key := (EnvName(environment).value, agent);
    if key in books.envs {
      assert PointerInv(books.versions, key, books.envs[key]);
    }
  }

  // ---- retirement is for good ------------------------------------------------------

  /** A promotion, accepted or not, leaves every version as it is. */
  lemma PromoteKeepsVersions(books: Books, name: string, agent: string, id: VersionId, actor: Option<string>,
                             gated: bool, force: bool)
    ensures PromoteInto(books, name, agent, id, actor, gated, force).0.versions == books.versions
  {
    var r := PromoteInto(books, name, agent, id, actor, gated, force).1;
    if r.Err? {
      RefusedPromotionChangesNothing(books, name, agent, id, actor, gated, force);
    } else {
      AcceptedPromotion(books, name, agent, id, actor, gated, force);
    }
  }

  lemma RetiredStays(books: Books, call: Call, id: VersionId)
    requires id in books.versions && books.versions[id].state == Retired
    ensures id in Next(books, call).versions && Next(books, call).versions[id] == books.versions[id]
  {
    hide PromoteInto, EnvName, SetGate;
    match call
    case CreateCall(agent, bundle, _, recorded, into, actor, force) =>
      if into.Some? && EnvName(into.value).Ok? {
        var after := Recorded(books, agent, bundle, recorded);
        PromoteKeepsVersions(after, EnvName(into.value).value, agent, recorded, actor, true, force);
      }
    case PromoteCall(environment, agent, version, actor, force) =>
      if EnvName(environment).Ok? {
        PromoteKeepsVersions(books, EnvName(environment).value, agent, version, actor, true, force);
      }
    case RollbackCall(environment, agent, actor, to) =>
      if EnvName(environment).Ok? {
        var name := EnvName(environment).value;
        RollbackPromotes(books, environment, agent, actor, to);
        var target := RollbackTarget(books, name, agent, to);
        if target.Ok? {
          PromoteKeepsVersions(books, name, agent, target.value, actor, false, false);
        }
      }
    case _ =>
  }

  /** Once content is retired it stays retired: whatever is deployed, promoted or rolled back afterwards, the
      agent has no other version of that content, and no environment can be pointed at it. Deploying the same
      tree again does not help. */
  lemma {:induction false} RetiredForGood(states: seq<Books>, calls: seq<Call>, m: nat, n: nat, id: VersionId)
    requires Run(states, calls) && m <= n < |states|
    requires id in states[m].versions && states[m].versions[id].state == Retired
    ensures id in states[n].versions && states[n].versions[id] == states[m].versions[id]
    ensures forall v | v in states[n].versions && v != id ::
              states[n].versions[v].agent != states[m].versions[id].agent
              || states[n].versions[v].bundleHash != states[m].versions[id].bundleHash
    ensures forall name, agent, actor, gated, force ::
              PromoteInto(states[n], name, agent, id, actor, gated, force).1.Err?
  {
    hide Next, Possible;
    RunKeepsInv(states, calls, n);
    if m < n {
      RetiredForGood(states, calls, m, n - 1, id);
      RetiredStays(states[n - 1], calls[n - 1], id);
    }
    forall name, agent, actor, gated, force
      ensures PromoteInto(states[n], name, agent, id, actor, gated, force).1.Err?
    {
      if PromoteInto(states[n], name, agent, id, actor, gated, force).1.Ok? {
        AcceptedPromotion(states[n], name, agent, id, actor, gated, force);
      }
    }
  }

  // ---- where the invariant ends ------------------------------------------------------

  /** A forced retirement keeps the invariant exactly when it did not need the force. */
  lemma ForcedRetireKeepsInvExactly(books: Books, id: VersionId)
    requires BaseInv(books) && ActiveInv(books)
    ensures ActiveInv(Retire(books, id, true).0) <==> Retire(books, id, false).1 != Err(VersionInUse)
  {
    RetireKeepsInv(books, id, false);
    if id in books.versions && books.versions[id].state == Active {
      var after := Retire(books, id, true).0;
      assert after.versions[id].state == Retired;
      if PinnedRuns(books, id) != {} {
        var run :| run in PinnedRuns(books, id);
        assert !PinInv(after, after.runs[run].versionId);
      }
      if CurrentForItsAgent(books, id) {
        var key :| key in books.envs && books.envs[key].agent == books.versions[id].agent
          && books.envs[key].current == Some(id);
        assert after.envs[key].current == Some(id);
      }
    }
  }

  /** A run started on a version its caller was holding keeps the invariant exactly when that version
      is not retired by now. */
  lemma StalePinKeepsInvExactly(books: Books, run: RunId, agent: string, version: Option<VersionId>)
    requires BaseInv(books) && ActiveInv(books) && run !in books.runs
    ensures ActiveInv(StartRun(books, run, agent, version)) <==> PinInv(books, version)
  {
    var after := StartRun(books, run, agent, version);
    assert after.runs[run].versionId == version;
  }

  /** Without the agent half of the pointer invariant the retire check would not be enough: it looks
      only at the environments of the version's own agent. */
  lemma AgentMatchIsNeeded()
    ensures exists books: Books, id: VersionId ::
              && ActiveInv(books)
              && Retire(books, id, false).1.Ok?
              && !ActiveInv(Retire(books, id, false).0)
  {
    var version := Version("v", "a", "h", Active, map[]);
    var env := Environment("prod", "b", Some("v"), [], None);
    var books := Books(map["v" := version], map[("prod", "b") := env], map[], map[], Policies(map[], None));
    assert PinnedRuns(books, "v") == {};
    assert !CurrentForItsAgent(books, "v");
    var after := Retire(books, "v", false).0;
    assert after.envs[("prod", "b")].current == Some("v") && after.versions["v"].state == Retired;
    assert ActiveInv(books) && Retire(books, "v", false).1.Ok? && !ActiveInv(after);
  }

  // ---- history -----------------------------------------------------------------------

  function IdsOf(history: seq<Replaced>): seq<VersionId> {
    seq(|history|, i requires 0 <= i < |history| => history[i].versionId)
  }

  /** An environment's history followed by its current pointer. */
  function Line(books: Books, key: EnvKey): seq<VersionId> {
    if key !in books.envs then []
    else IdsOf(books.envs[key].history) + if books.envs[key].current.Some? then [books.envs[key].current.value] else []
  }

  /** The pointer a call moved, and where to; nothing when it was refused. */
  function Flip(books: Books, call: Call): Option<(EnvKey, VersionId)> {
    match call
    case CreateCall(agent, bundle, _, recorded, into, actor, force) =>
      if AcceptsBundle(agent, bundle) && into.Some?
      then PromoteFlip(Recorded(books, agent, bundle, recorded), into.value, agent, recorded, actor, true, force)
      else None
    case PromoteCall(environment, agent, id, actor, force) =>
      PromoteFlip(books, environment, agent, id, actor, true, force)
    case RollbackCall(environment, agent, actor, to) =>
      var name := EnvName(environment);
      if name.Ok? && RollbackTarget(books, name.value, agent, to).Ok?
      then
        var target := RollbackTarget(books, name.value, agent, to).value;
        PromoteFlip(books, environment, agent, target, actor, false, false)
      else None
    case _ => None
  }

  function PromoteFlip(books: Books, environment: string, agent: string, id: VersionId, actor: Option<string>,
                       gated: bool, force: bool): Option<(EnvKey, VersionId)> {
    var name := EnvName(environment);
    if name.Ok? && PromoteInto(books, name.value, agent, id, actor, gated, force).1.Ok?
    then Some(((name.value, agent), id)) else None
  }

  /** What one flip adds to one environment's line. */
  function Added(flip: Option<(EnvKey, VersionId)>, key: EnvKey): seq<VersionId> {
    if flip.Some? && flip.value.0 == key then [flip.value.1] else []
  }

  lemma SetCurrentExtendsLine(books: Books, name: string, agent: string, id: VersionId, actor: Option<string>,
                              key: EnvKey)
    requires BaseInv(books)
    ensures Line(SetCurrent(books, name, agent, id, actor), key) == Line(books, key) + if key ==
            (name, agent) then [id] else []
  {
    if key == (name, agent) && key in books.envs {
      var env := books.envs[key];
      assert PointerInv(books.versions, key, env);
      assert IdsOf(env.history + [Replaced(env.current.value, actor)]) == IdsOf(env.history) + [env.current.value];
    }
  }

  lemma LineFollowsEnvs(a: Books, b: Books, key: EnvKey)
    requires a.envs == b.envs
    ensures Line(a, key) == Line(b, key)
  {
  }

  lemma PromoteExtendsLine(books: Books, environment: string, agent: string, id: VersionId, actor: Option<string>,
                           gated: bool, force: bool, key: EnvKey)
    requires BaseInv(books) && EnvName(environment).Ok?
    ensures Line(PromoteInto(books, EnvName(environment).value, agent, id, actor, gated, force).0, key) ==
            Line(books, key) + Added(PromoteFlip(books, environment, agent, id, actor, gated, force), key)
  {
    hide PromoteInto, SetCurrent, Line, BaseInv, EnvName;
    var name := EnvName(environment).value;
    var (after, r) := PromoteInto(books, name, agent, id, actor, gated, force);
    if r.Err? {
      RefusedPromotionChangesNothing(books, name, agent, id, actor, gated, force);
    } else {
      AcceptedPromotion(books, name, agent, id, actor, gated, force);
      SetCurrentExtendsLine(books, name, agent, id, actor, key);
      LineFollowsEnvs(after, SetCurrent(books, name, agent, id, actor), key);
    }
  }

  lemma CreateExtendsLine(books: Books, call: Call, key: EnvKey)
    requires call.CreateCall? && BaseInv(books) && Possible(books, call)
    ensures Line(Next(books, call), key) == Line(books, key) + Added(Flip(books, call), key)
  {
    hide PromoteInto, Line, EnvName, RecordedAs, BaseInv;
    if AcceptsBundle(call.agent, call.bundle) {
      var after := Recorded(books, call.agent, call.bundle, call.recorded);
      RecordedKeepsBase(books, call.agent, call.bundle, call.newId, call.recorded);
      LineFollowsEnvs(books, after, key);
      if call.into.Some? && EnvName(call.into.value).Ok? {
        PromoteExtendsLine(after, call.into.value, call.agent, call.recorded, call.actor, true, call.force, key);
      }
    }
  }

  lemma RollbackExtendsLine(books: Books, call: Call, key: EnvKey)
    requires call.RollbackCall? && BaseInv(books)
    ensures Line(Next(books, call), key) == Line(books, key) + Added(Flip(books, call), key)
  {
    hide PromoteInto, Line, BaseInv;
    if EnvName(call.environment).Ok? {
      var name := EnvName(call.environment).value;
      RollbackPromotes(books, call.environment, call.agent, call.actor, call.to);
      if RollbackTarget(books, name, call.agent, call.to).Ok? {
        var target := RollbackTarget(books, name, call.agent, call.to).value;
        PromoteExtendsLine(books, call.environment, call.agent, target, call.actor, false, false, key);
      }
    }
  }

  lemma FlipExtendsLine(books: Books, call: Call, key: EnvKey)
    requires BaseInv(books) && Possible(books, call)
    ensures Line(Next(books, call), key) == Line(books, key) + Added(Flip(books, call), key)
  {
    hide PromoteInto, Line, SetGate, EnvName, RecordedAs, BaseInv;
    match call
    case CreateCall(_, _, _, _, _, _, _) => CreateExtendsLine(books, call, key);
    case PromoteCall(environment, agent, id, actor, force) =>
      if EnvName(environment).Ok? {
        PromoteExtendsLine(books, environment, agent, id, actor, true, force, key);
      }
    case RollbackCall(_, _, _, _) => RollbackExtendsLine(books, call, key);
    case _ => LineFollowsEnvs(books, Next(books, call), key);
  }

  /** Every pointer flip of one environment, in order. */
  function FlipLog(states: seq<Books>, calls: seq<Call>, n: nat, key: EnvKey): seq<VersionId>
    requires |states| == |calls| + 1 && n < |states|
  {
    if n == 0 then []
    else
      FlipLog(states, calls, n - 1, key) + Added(Flip(states[n - 1], calls[n - 1]), key)
  }

  /** The history and the current pointer together list every flip there ever was, in order. */
  lemma {:induction false} HistoryIsTheFlipLog(states: seq<Books>, calls: seq<Call>, n: nat, key: EnvKey)
    requires Run(states, calls) && n < |states|
    ensures Line(states[n], key) == FlipLog(states, calls, n, key)
  {
    if n > 0 {
      HistoryIsTheFlipLog(states, calls, n - 1, key);
      StepExtendsLine(states, calls, n - 1, key);
    }
  }

  lemma StepExtendsLine(states: seq<Books>, calls: seq<Call>, n: nat, key: EnvKey)
    requires Run(states, calls) && n < |calls|
    ensures Line(states[n + 1], key) == Line(states[n], key) + Added(Flip(states[n], calls[n]), key)
  {
    RunKeepsInv(states, calls, n);
    FlipExtendsLine(states[n], calls[n], key);
  }

  // ---- provenance --------------------------------------------------------------------

  function ActorOf(call: Call): Option<string> {
    if call.CreateCall? || call.PromoteCall? || call.RollbackCall? then call.actor else None
  }

  /** At this call the version first became current for the environment, and it was vetted: the gate in
      force let it through, or an override for this environment was filed against it. */
  ghost predicate AdmittedAt(states: seq<Books>, calls: seq<Call>, k: nat, key: EnvKey, id: VersionId)
    requires |states| == |calls| + 1
  {
    && k < |calls|
    && Flip(states[k], calls[k]) == Some((key, id))
    && id !in Line(states[k], key)
    && id in states[k + 1].versions
    && Vetted(states[k].policies, states[k + 1].versions[id], Evidence(states[k], id), key.0, ActorOf(calls[k]),
              Evidence(states[k + 1], id))
  }

  /** The flip a call made, if it is not a repeat, was vetted. */
  ghost predicate FlipVetted(books: Books, call: Call, key: EnvKey, id: VersionId) {
    && id in Next(books, call).versions
    && Vetted(books.policies, Next(books, call).versions[id], Evidence(books, id), key.0, ActorOf(call),
              Evidence(Next(books, call), id))
  }

  lemma CreateFlipIsVetted(books: Books, call: Call)
    requires call.CreateCall? && Flip(books, call).Some?
    ensures FlipVetted(books, call, Flip(books, call).value.0, Flip(books, call).value.1)
  {
    var after, name := Recorded(books, call.agent, call.bundle, call.recorded), EnvName(call.into.value).value;
    assert Evidence(after, call.recorded) == Evidence(books, call.recorded);
    GatedPromotionIsVetted(after, name, call.agent, call.recorded, call.actor, call.force);
    AcceptedPromotion(after, name, call.agent, call.recorded, call.actor, true, call.force);
  }

  lemma PromoteFlipIsVetted(books: Books, call: Call)
    requires call.PromoteCall? && Flip(books, call).Some?
    ensures FlipVetted(books, call, Flip(books, call).value.0, Flip(books, call).value.1)
  {
    var name := EnvName(call.environment).value;
    GatedPromotionIsVetted(books, name, call.agent, call.id, call.actor, call.force);
    AcceptedPromotion(books, name, call.agent, call.id, call.actor, true, call.force);
  }

  lemma RollbackFlipIsARepeat(books: Books, call: Call)
    requires call.RollbackCall? && call.to.None? && Flip(books, call).Some?
    ensures Flip(books, call).value.1 in Line(books, Flip(books, call).value.0)
  {
    hide PromoteInto, EnvName;
    var key := (EnvName(call.environment).value, call.agent);
    var ids := IdsOf(books.envs[key].history);
    assert ids[|ids| - 1] in ids;
  }

  lemma AdmittedNow(states: seq<Books>, calls: seq<Call>, n: nat, key: EnvKey, id: VersionId)
    requires Run(states, calls) && n < |calls| && (calls[n].RollbackCall? ==> calls[n].to.None?)
    requires id in Added(Flip(states[n], calls[n]), key) && id !in Line(states[n], key)
    ensures AdmittedAt(states, calls, n, key, id)
  {
    hide EnvName, PromoteInto;
    match calls[n]
    case CreateCall(_, _, _, _, _, _, _) => CreateFlipIsVetted(states[n], calls[n]);
    case PromoteCall(_, _, _, _, _) => PromoteFlipIsVetted(states[n], calls[n]);
    case RollbackCall(_, _, _, _) => RollbackFlipIsARepeat(states[n], calls[n]);
    case _ =>
  }

  lemma LineStartsEmpty(states: seq<Books>, calls: seq<Call>, key: EnvKey)
    requires Run(states, calls)
    ensures Line(states[0], key) == []
  {
  }

  /** With only gated promotions and default rollbacks, every version an environment ever pointed at
      was vetted when it first became current there. */
  lemma {:induction false} EveryPointerWasVetted(states: seq<Books>, calls: seq<Call>, n: nat, key: EnvKey,
                                                 id: VersionId)
    requires Run(states, calls) && n < |states|
    requires forall i | 0 <= i < n && calls[i].RollbackCall? :: calls[i].to.None?
    requires id in Line(states[n], key)
    ensures exists k: nat :: k < n && AdmittedAt(states, calls, k, key, id)
  {
    LineStartsEmpty(states, calls, key);
    hide Next, Possible, Flip, Line, AdmittedAt;
    StepExtendsLine(states, calls, n - 1, key);
    if id in Line(states[n - 1], key) {
      EveryPointerWasVetted(states, calls, n - 1, key, id);
      var k: nat :| k < n - 1 && AdmittedAt(states, calls, k, key, id);
    } else {
      AdmittedNow(states, calls, n - 1, key, id);
    }
  }

  // ---- rollback ----------------------------------------------------------------------

  /** A default rollback right after a promotion restores the pointer that was replaced exactly when
      there was one, it was a different version, and it is still active. */
  lemma RollbackUndoesPromote(before: Books, environment: string, agent: string, id: VersionId,
                              actor: Option<string>, force: bool, later: Books, undoer: Option<string>)
    requires BaseInv(before) && EnvName(environment).Ok?
    requires PromoteInto(before, EnvName(environment).value, agent, id, actor, true, force).1.Ok?
    requires later.envs == PromoteInto(before, EnvName(environment).value, agent, id, actor, true, force).0.envs
    requires forall v | v in before.versions :: v in later.versions
              && later.versions[v].agent == before.versions[v].agent
    ensures var key := (EnvName(environment).value, agent);
            var (undone, r) := Rollback(later, environment, agent, undoer, None);
            && (r.Ok? <==> key in before.envs && before.envs[key].current != Some(id)
                           && later.versions[before.envs[key].current.value].state == Active)
            && (r.Ok? ==> key in undone.envs && undone.envs[key].current == before.envs[key].current)
  {
    var name := EnvName(environment).value;
    var key := (name, agent);
    AcceptedPromotion(before, name, agent, id, actor, true, force);
    RollbackPromotes(later, environment, agent, undoer, None);
    hide PromoteInto, Rollback;
    var target := RollbackTarget(later, name, agent, None);
    if target.Ok? {
      UngatedPromotion(later, name, agent, target.value, undoer);
      if PromoteInto(later, name, agent, target.value, undoer, false, false).1.Ok? {
        AcceptedPromotion(later, name, agent, target.value, undoer, false, false);
      }
    }
    if key in before.envs {
      var env, prior := before.envs[key], before.envs[key].current;
      assert PointerInv(before.versions, key, env);
      assert later.envs[key].history == env.history + [Replaced(prior.value, actor)];
      assert later.envs[key].current == Some(id);
    } else {
      assert later.envs[key].history == [];
    }
  }
}
