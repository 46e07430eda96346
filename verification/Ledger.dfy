/** Versions, environment pointers and the runs pinned to versions: what each call does to them. */
module Ledger {
  import opened Outcomes
  import opened Texts
  import opened Gates

  type RunId = string

  datatype RunStatus = Queued | Executing | WaitingApproval | Completed | Failed | Rejected | NeedsReconnect

  predicate Terminal(status: RunStatus) {
    status == Completed || status == Failed || status == Rejected || status == NeedsReconnect
  }

  datatype PinnedRun = PinnedRun(id: RunId, agent: string, versionId: Option<VersionId>, status: RunStatus)

  datatype Replaced = Replaced(versionId: VersionId, actor: Option<string>)

  datatype Environment = Environment(
    name: string,
    agent: string,
    current: Option<VersionId>,
    history: seq<Replaced>,
    actor: Option<string>)

  /** The name of an environment and the agent whose pointer it is. */
  type EnvKey = (string, string)

  datatype Books = Books(
    versions: map<VersionId, Version>,
    envs: map<EnvKey, Environment>,
    runs: map<RunId, PinnedRun>,
    evidence: map<VersionId, seq<Attestation>>,
    policies: Policies)

  datatype Bundle = Bundle(hash: string, agent: string, metadata: map<string, string>)

  function Evidence(books: Books, id: VersionId): seq<Attestation> {
    if id in books.evidence then books.evidence[id] else []
  }

  /** A flat, non-empty name. */
  function EnvName(environment: string): Result<string> {
    var name := Strip(environment);
    if name == "" || '/' in name then Err(Validation) else Ok(name)
  }

  // ---- versions --------------------------------------------------------------------

  /** The id new content is recorded under: the one its content already has, or the one generated for it. */
  ghost predicate RecordedAs(books: Books, agent: string, hash: string, newId: VersionId, id: VersionId) {
    if exists known :: known in books.versions && books.versions[known].agent == agent
         && books.versions[known].bundleHash == hash
    then id in books.versions && books.versions[id].agent == agent && books.versions[id].bundleHash == hash
    else id == newId
  }

  function Recorded(books: Books, agent: string, bundle: Bundle, id: VersionId): Books {
    if id in books.versions then books
    else books.(versions := books.versions[id := Version(id, agent, bundle.hash, Active, bundle.metadata)])
  }

  // ---- pointers --------------------------------------------------------------------

  /** Move the pointer; the version it pointed at goes to the end of the history. */
  function SetCurrent(books: Books, name: string, agent: string, id: VersionId, actor: Option<string>): Books {
    var key := (name, agent);
    var env := if key in books.envs then books.envs[key] else Environment(name, agent, None, [], None);
    var kept := if Truthy(env.current) then env.history + [Replaced(env.current.value, actor)] else env.history;
    books.(envs := books.envs[key := env.(current := Some(id), history := kept, actor := actor)])
  }

  /** Point a named environment at a version: refused for an unknown, foreign or retired version and,
      when gated, for one the gate blocks. */
  function PromoteInto(books: Books, name: string, agent: string, id: VersionId, actor: Option<string>,
                       gated: bool, force: bool): (Books, Result<()>) {
    if id !in books.versions then (books, Err(VersionNotFound))
    else
      var version := books.versions[id];
      if version.agent != agent then (books, Err(BundleMismatch))
      else if version.state == Retired then (books, Err(VersionRetired))
      else if !gated then (SetCurrent(books, name, agent, id, actor), Ok(()))
      else
        var vetted := RequirePromotion(books.policies, version, Evidence(books, id), name, actor, force);
        if vetted.Err? then (books, Err(vetted.error))
        else (SetCurrent(WithEvidence(books, id, vetted.value), name, agent, id, actor), Ok(()))
  }

  function WithEvidence(books: Books, id: VersionId, records: seq<Attestation>): Books {
    if records == Evidence(books, id) then books else books.(evidence := books.evidence[id := records])
  }

  function Promote(books: Books, environment: string, agent: string, id: VersionId, actor: Option<string>,
                   gated: bool, force: bool): (Books, Result<()>) {
    var name := EnvName(environment);
    if name.Err? then (books, Err(name.error)) else PromoteInto(books, name.value, agent, id, actor, gated, force)
  }

  /** Where a rollback goes: the last version in the history, unless it is told. */
  function RollbackTarget(books: Books, name: string, agent: string, to: Option<VersionId>): Result<VersionId> {
    if (name, agent) !in books.envs || !Truthy(books.envs[(name, agent)].current) then Err(EnvironmentNotFound)
    else
      var env := books.envs[(name, agent)];
      if to.None? && env.history == [] then Err(VersionNotFound)
      else
        var target := if to.Some? then to.value else env.history[|env.history| - 1].versionId;
        if Some(target) == env.current then Err(Validation) else Ok(target)
  }

  /** Flip the pointer back; never gated. */
  function Rollback(books: Books, environment: string, agent: string, actor: Option<string>,
                    to: Option<VersionId>): (Books, Result<()>) {
    var name := EnvName(environment);
    if name.Err? then (books, Err(name.error))
    else
      var target := RollbackTarget(books, name.value, agent, to);
      if target.Err? then (books, Err(target.error))
      else Promote(books, name.value, agent, target.value, actor, false, false)
  }

  // ---- retirement ------------------------------------------------------------------

  function PinnedRuns(books: Books, id: VersionId): set<RunId> {
    set run | run in books.runs && books.runs[run].versionId == Some(id) && !Terminal(books.runs[run].status)
  }

  /** Some environment of the version's own agent points at it: the only ones `retire` looks at. */
  predicate CurrentForItsAgent(books: Books, id: VersionId)
    requires id in books.versions
  {
    exists key | key in books.envs ::
      books.envs[key].agent == books.versions[id].agent && books.envs[key].current == Some(id)
  }

  function Retire(books: Books, id: VersionId, force: bool): (Books, Result<()>) {
    if id !in books.versions then (books, Err(VersionNotFound))
    else if books.versions[id].state == Retired then (books, Ok(()))
    else if !force && (CurrentForItsAgent(books, id) || PinnedRuns(books, id) != {}) then (books, Err(VersionInUse))
    else (books.(versions := books.versions[id := books.versions[id].(state := Retired)]), Ok(()))
  }

  // ---- runs ------------------------------------------------------------------------

  /** The version an environment points at; a pointer to nothing is corruption, not emptiness. */
  function CurrentVersion(books: Books, environment: string, agent: string): Result<Option<Version>> {
    if (environment, agent) !in books.envs || !Truthy(books.envs[(environment, agent)].current) then Ok(None)
    else
      var id := books.envs[(environment, agent)].current.value;
      if id in books.versions then Ok(Some(books.versions[id])) else Err(VersionNotFound)
  }

  /** The version a new run must pin itself to. */
  function ResolveForRun(books: Books, environment: string, agent: string): Result<Version> {
    var name := EnvName(environment);
    if name.Err? then Err(name.error)
    else
      var current := CurrentVersion(books, name.value, agent);
      if current.Err? then Err(current.error)
      else if current.value.None? then Err(EnvironmentNotFound)
      else if current.value.value.state == Retired then Err(VersionRetired)
      else Ok(current.value.value)
  }

  /** Record a queued run pinned to the version it was handed. */
  function StartRun(books: Books, run: RunId, agent: string, version: Option<VersionId>): Books {
    books.(runs := books.runs[run := PinnedRun(run, agent, version, Queued)])
  }
}
