# Protocol models of Rya

This project models the stateful protocols of the Rya platform and proves what they promise over
whole runs. Each protocol is written twice: as the calls the source makes on its stores (classes and
methods that get, check, rewrite and save), and as functions over the state those calls leave behind,
which the methods are proved against and the theorems are about.

| modules | protocol |
|---|---|
| `QueueJobs`, `QueueStore`, `Queue`, `QueueRuns`, `QueueOutcomes`, `QueueClaims`, `QueueBatch`, `QueueSql`, `BackoffDelays`, `Quotas` | the durable leased queue, its file and SQL forms, and its admission |
| `Gates`, `Ledger`, `LedgerStore`, `LedgerRuns`, `PromotionOutcomes` | versions, environment pointers, the promotion gate |
| `BundleTree`, `BundleRules`, `BundleHash`, `BundleArchive`, `Bundles`, `BundleOutcomes` | content-addressed bundles |
| `KeyIds`, `KeyRings`, `KeyStore`, `KeyRuns` | the per-tenant key ring |
| `Streams`, `Turns`, `TurnEvents`, `Approvals`, `ApprovalRuns` | chat turns, their streams, approvals of paused runs |
| `NamedLeases`, `Groups` | named leases and fan-in groups |
| `Outcomes`, `Texts`, `Decimals`, `Sets`, `StableSort` | results, texts, numbers as text, sets, sorting |

Every public call is one atomic step. A call takes the clock (microseconds) as a parameter; stored
deadlines are ISO texts with whole seconds that are compared as texts, and so are numbers of seconds
here. Ids and keys that the source generates are parameters, new ones where a run is concerned.
Pattern matching, the digest, the YAML manifest and text decoding are parameters of the bundle model
(`Bundles.Platform`); the digest is asked to have one width and no collision only on the texts at hand.
A sealed value is a text whose ciphertext is one symbol that only its own key opens.

A run is a sequence of states and of calls in between, from an empty store. Theorems about runs hold
for every such sequence; what a call may assume (fresh ids, a clock that does not go back for named
leases) is stated in the `Possible` predicate of the module or in its `Run`.

## Where the code differs from its words

- Clearing an agent's gate policy with nothing brings the shared policy back into force, though
  `src/rya/gates.py:75-76` says it does not: exactly when the shared one asks for anything
  (`Gates.ClearedPolicyFallsBack`, `Gates.SharedPolicyResurfaces`).
- The hint at `src/rya/deployments.py:295-296` says that deploying a retired tree again records a fresh version.
  The same content is the same version, so it stays retired (`LedgerRuns.RetiredForGood`).
- `is_terminal` promises the final terminal frame and returns the first, and readers stop there. The two differ
  for every turn whose attempts make more than one ending: one that raised and was retried, or one whose
  report the queue refused (`Turns.FirstIsFinalExactly`, `Turns.RetriedTurn`).
- Workspace ids that hold a dot or a colon seal and never open (`KeyRuns.SealOpensExactly`).
- A key opened under an id that spells its scope another way, such as `default` for no tenant, is cached
  where shredding does not look (`KeyRuns.OpenKeepsCacheExactly`, `KeyRuns.EvictionMissesOtherSpellings`);
  envelopes as they are sealed are not affected (`KeyRuns.OpensExactlyUntilShredded`).
- Packing takes files whose path starts with a backslash or has a colon in second place; unpacking refuses
  the archive (`BundleArchive.UnpackAcceptsExactly`).
- A manifest that is a symbolic link is read and not bundled, so the bundle does not build again from what is
  packed (`BundleOutcomes.LinkedManifestIsNotKept`).
- An empty list of types claims anything from the file store and nothing from Postgres, Postgres counts
  jobs under an empty concurrency key, and compares arrival numbers as text, so that 10 is claimed before 9
  (`QueueSql.TypeFilterAgrees`, `QueueSql.BusyAgreesExactly`, `QueueSql.RankAgreesExactly`,
  `QueueSql.WidthMatters`). "No cap" is the number 2147483647 there.
- `enqueue_event` writes the run before its job is admitted, and `enqueue_resume` the decision. At the depth
  ceiling of the queue the first leaves a queued run, and whenever the quota refuses a job the second leaves
  an approving approval, that nothing will carry on (`TurnEvents.RunIsStrandedExactly`,
  `ApprovalRuns.ResumeHasAJobExactly`).
- A refused report raises out of `execute_pending`, and the turns claimed with it are left claimed and unrun
  until their leases expire (`Turns.RunAll`).
- A run started on a version its caller resolved earlier can pin a version retired since
  (`LedgerRuns.StalePinKeepsInvExactly`).
- The two lease stores tell a renewal apart differently, and names with unsafe characters share a file
  (`NamedLeases.SqlGrantsAlike`, `NamedLeases.SlugIsItsOwnExactly`).
- A failure reported to an unknown group is `None` from the file store and `{"fire": False}` from Postgres
  (`Groups.StoresAnswerAlikeExactly`).
- An empty batch is refused while the queue is at its depth ceiling (`QueueBatch.BatchIsAllOrNothing`).

## Model

| member | source | states |
|---|---|---|
| Quotas.CheckAdmission | src/rya/quotas.py:251-300 | every reached ceiling that binds this kind of work is listed with its own figures, and no other; the organization is listed exactly when exhausted |
| Quotas.RequireAdmission | src/rya/quotas.py:303-342 | refused as disabled, by a malformed policy, or by any reached ceiling; admitted otherwise |
| Quotas.JobAdmittedExactly | src/rya/quotas.py:241-342 | a job is admitted exactly into an active workspace with a sound policy and organization budget, while the queue, tokens and cost are below their ceilings |
| Quotas.RunAdmittedExactly | src/rya/quotas.py:241-342 | a run is held to the runs under way and of the day, tokens and cost, and not to the depth of the queue |
| Quotas.JobAfterRun | src/rya/quotas.py:241-300 | once a run is admitted its job is refused exactly when the queue is at its depth ceiling |
| QueueStore.Directory.List | src/rya/store.py:612-621 | all jobs of a status, each once, by priority, then due time, then arrival |
| QueueStore.Directory.ReapExpired | src/rya/store.py:623-639 | every expired lease is reaped, and nothing else is touched: back to pending, or dead-lettered once the attempts are used up |
| QueueStore.Directory.CountRunning | src/rya/store.py:646-650 | how many running jobs each non-empty concurrency key has |
| QueueStore.Directory.ClaimOne | src/rya/store.py:641-668 | claims the one job no other claimable job ranks before (running jobs of its key, priority, due time, arrival), and none exactly when none is due, type-matching and under its cap |
| QueueStore.FairOrder | src/rya/store.py:69-89 | a stable sort by running count alone leaves a listing in lexicographic order of running count, priority, due time, arrival |
| QueueStore.FirstFitIsBest | src/rya/store.py:651-667 | the first claimable job of that order ranks before every other claimable job |
| StableSort.SortIsStable | src/rya/store.py:69-89 | sorting a list already in one order stably by another gives the lexicographic order of the two |
| Queue.EnqueueJob | src/rya/queue.py:55-103 | a known id returns the job untouched before admission is asked; a missing type, then a refused admission, leave the queue as it was; otherwise one fresh pending job |
| Queue.Claim | src/rya/queue.py:159-260 | one claim call: reap, take the best job again and again, hand foreign jobs back; the new queue and the returned jobs are those of a finished pick sequence |
| Queue.TakeJobs | src/rya/queue.py:233-250 | the loop stops at the wanted number, at 50 tries, or when nothing is claimable, and splits what it took into own and foreign jobs |
| Queue.HandBack | src/rya/queue.py:251-259 | each held foreign job is pending again with the attempt it was charged taken off |
| Queue.ExtendLease | src/rya/queue.py:279-296 | only the holder moves the lease, to now plus the extension |
| Queue.CompleteJob | src/rya/queue.py:299-312 | only the holder completes; a cancelled job answers quietly; a requested cancel wins over the completion |
| Queue.FailJob | src/rya/queue.py:315-343 | only the holder fails a job: cancelled if that was asked for, dead-lettered at the attempt budget, otherwise pending again after its delay |
| Queue.CancelJob | src/rya/queue.py:346-367 | pending jobs cancel at once, running ones are flagged or, forced, cancelled; unknown ids resolve quietly; what each of these leaves is `QueueOutcomes.CancelTakesEffect` |
| Queue.RetryJob | src/rya/queue.py:370-382 | failed and cancelled jobs start over with a fresh budget; any other is refused |
| Queue.PickNext | src/rya/queue.py:235-250 | a job the loop already holds cannot be picked a second time |
| QueueRuns.RunKeepsInv | src/rya/queue.py:76-103 | in every state of every run: pending jobs have attempts left, running ones are within budget with worker and lease, others have no lease, dead letter means failed, completed means no cancel pending |
| QueueRuns.NextIsJobNext | src/rya/queue.py:270-382 | a call about one job changes no other |
| QueueRuns.HoldAfterCall | src/rya/queue.py:270-276 | after a call a worker holds a job exactly when the call claimed and kept it, or it held it before and the call did not end the hold |
| QueueRuns.Fencing | src/rya/queue.py:270-343 | over every run a worker holds a job exactly when it made that job's latest claim and no reap, release, fail, completion or forced cancel came after it |
| QueueRuns.ReportsAreFenced | src/rya/queue.py:279-343 | a heartbeat, completion or failure that changes anything comes from the worker with the latest claim |
| QueueRuns.SettledStays | src/rya/queue.py:299-382 | completed jobs are never written again, failed and cancelled ones only by a retry |
| QueueRuns.CancelRequestSticks | src/rya/queue.py:346-367 | a job asked to cancel never completes unless it is retried, even if it loses its lease and is claimed again |
| QueueRuns.HeartbeatMovesTheReap | src/rya/queue.py:279-296 | an accepted heartbeat moves the moment of reaping to the extension after it and changes nothing else |
| QueueRuns.FuelFalls | src/rya/queue.py:329-342 | twice the attempts left, plus one while running, drops on every call that moves the job and on no other |
| QueueRuns.EveryJobSettles | src/rya/queue.py:315-343 | unless retried, a job is moved at most twice its attempt budget, and one moved that often is settled |
| QueueOutcomes.ReportsEndTheHold | src/rya/queue.py:299-343 | over every run the report of the worker with the latest claim ends the job: a completion leaves it completed with its output, or cancelled if that was asked for; a failure leaves it cancelled if that was asked for, pending with its attempts and due after its delay while there are attempts left, and dead-lettered otherwise, with the first 2000 characters of the reason |
| QueueOutcomes.CancelTakesEffect | src/rya/queue.py:346-367 | over every run a cancel leaves a job that is over as it is, cancels a pending one at once and a running one if forced, and otherwise flags it, still held by the same worker under the same lease |
| QueueOutcomes.CancelledNeverCompletes | src/rya/queue.py:299-367 | after a cancel of a job that is not over, and until a retry, the job never completes, and an accepted completion or failure leaves it cancelled |
| QueueOutcomes.ExpiredLeasesAreTaken | src/rya/store.py:623-639 | over every run a claim leaves a running job as it is while its lease runs; once it is over the job is dead-lettered if its attempts are used up, and otherwise pends, due at once, unless the same claim takes it |
| QueueOutcomes.FirstClaimIsDue | src/rya/queue.py:55-103 | the first claim of an enqueued job comes no sooner than its delay and is open to its type; until then it keeps the priority it was enqueued with and its whole budget |
| QueueOutcomes.WaitsForItsFirstClaim | src/rya/queue.py:76-103 | until it is claimed or retried a new job is as it was asked for: due time, priority, budget, tags, retry delay and caps |
| QueueClaims.ClaimReturnsItsOwn | src/rya/queue.py:214-250 | one claim returns distinct due jobs, at most 50 and at most what was asked for, none pinned to another version or owned by another agent |
| QueueClaims.ClaimLeasesTheJob | src/rya/store.py:662-667 | each returned job is held by the caller until the lease asked for, with one attempt more and within budget |
| QueueClaims.ClaimReturnsTheRest | src/rya/queue.py:251-259 | every job not returned is, but for `startedAt`, exactly what it was after the reap: status, attempts, due time, priority, arrival |
| QueueClaims.ClaimReachesItsOwnWork | src/rya/queue.py:227-250 | without caps, when the due foreign jobs and the wanted number fit into 50, exactly as many come back as were wanted or as there are |
| QueueClaims.TagsDecide | src/rya/queue.py:235-250 | a claim keeps exactly the picks that carry no version or agent tag against it: untagged work is anyone's, and a claimer that names nothing keeps everything |
| QueueClaims.NobodyIsPassedOver | src/rya/store.py:641-668 | no waiting job is passed over for the one taken: none whose key has fewer jobs running, then none of higher priority, then none due earlier, then none enqueued earlier |
| QueueClaims.NothingWaits | src/rya/store.py:651-668 | a claim finds nothing exactly when no job is pending, due, of a type asked for and with room under its cap |
| QueueClaims.CapHolds | src/rya/store.py:646-667 | if every request for a key asks for one limit of at least 1, no reachable state has more running jobs of that key |
| QueueClaims.CapHoldsInside | src/rya/queue.py:235-250 | the same at every moment inside a claim, the held foreign jobs counted |
| QueueSql.SqlReapIsReap | src/rya/store_postgres.py:644-668 | the two UPDATE statements do what the loop over the directory does |
| QueueSql.SqlPicksTheSameJob | src/rya/store_postgres.py:670-706 | the ORDER BY may pick a job exactly when the sorted scan may, for non-empty keys and arrival numbers that compare alike as texts wherever they decide |
| QueueSql.RankAgreesExactly | src/rya/store_postgres.py:672-701 | the two orders agree on two jobs exactly when their arrival numbers do not decide, or the wider number does not begin with a number less than the narrower one |
| Decimals.TextComparesExactly | src/rya/store_postgres.py:672-701 | two numbers compare as texts as they do as numbers under exactly that condition |
| QueueSql.ChoiceIsUnique | src/rya/store_postgres.py:670-706 | with distinct arrival numbers there is one such job |
| QueueSql.TypeFilterAgrees | src/rya/store_postgres.py:672-701 | the two type filters agree exactly when the list is not an empty list |
| QueueSql.BusyAgreesExactly | src/rya/store_postgres.py:672-701 | the two running counts agree exactly when the key is not the empty text |
| QueueSql.WidthMatters | src/rya/store_postgres.py:672-701 | arrival numbers 9 and 10 are claimed in opposite orders by the two stores |
| BackoffDelays.BackoffGrowsWithinBounds | src/rya/queue.py:38-41 | the default delay never shrinks and stays within 5 and 300 seconds |
| BackoffDelays.CapFromTheSeventh | src/rya/queue.py:38-41 | the cap is reached from the seventh attempt on and not before |
| BackoffDelays.TotalWaitIs | src/rya/queue.py:38-41 | k failures wait 5*(2^k - 1) seconds in all up to the sixth, 315 + 300*(k - 6) from there on |
| QueueBatch.EnqueueMany | src/rya/queue.py:106-137 | the batch is charged once for all its items, then enqueued item by item |
| QueueBatch.AdmissionIsMonotone | src/rya/quotas.py:251-300 | an admission granted at some depth is granted at every smaller one |
| QueueBatch.NoItemIsRefused | src/rya/queue.py:66-75 | after the charged check no item of the loop is refused by its own, repeated and known ids included |
| QueueBatch.BatchIsAllOrNothing | src/rya/queue.py:106-137 | a batch is taken whole or not at all, exactly by the charged check and its type, and the pending depth ends within the quota |
| Gates.CheckPromotion | src/rya/gates.py:327-445 | one check for each thing the gate demands, in order; the failed ones are exactly what is unmet; what that means of the reports is `PromotionOutcomes.BlockedExactly` |
| Gates.UnmetNeeds | src/rya/gates.py:349-445 | a requirement is listed exactly when the gate demands it and the newest evidence does not meet it; the list is empty exactly when the gate passes |
| Gates.AdmittedIsVetted | src/rya/gates.py:448-481 | an admitted promotion passed the gate in force or left an override for its environment on record; unforced, only the first |
| Gates.NewestReadinessDecides | src/rya/gates.py:266-312 | the newest readiness report decides, whatever was filed before it |
| Gates.ClearedPolicyFallsBack | src/rya/gates.py:62-82 | clearing an agent's policy leaves it without a gate exactly when there is no shared policy or the shared one asks nothing of the environment; otherwise the shared one is in force |
| Gates.SharedPolicyResurfaces | src/rya/gates.py:62-82 | an agent whose own policy asks nothing promotes, and is blocked once that policy is cleared over a shared one that asks for evals |
| Gates.AcceptedPolicyResolves | src/rya/gates.py:203-260 | a policy that was accepted resolves for every environment |
| PromotionOutcomes.GateInForce | src/rya/gates.py:164-236 | each setting is the environment's own, or else the default entry's, or else the built-in one; unknown fields and a score outside 0 to 1 are refused, and a malformed policy blocks |
| PromotionOutcomes.BlockedExactly | src/rya/gates.py:327-481 | a gated, unforced promotion is blocked exactly when readiness is demanded and the last report is missing, failed, of another bundle, or warns where that is not allowed; or evals are demanded and the last report is missing, failed, empty or below the score; or a non-blank actor or a piece of provenance is demanded and missing; otherwise the pointer moves |
| PromotionOutcomes.ForcedLeavesAnOverride | src/rya/gates.py:448-481 | a forced promotion is never refused, and one past a gate files an override that names the environment, the actor and exactly the demands that were not met |
| PromotionOutcomes.FailedEvalsAreBlocked | src/rya/gates.py:388-420 | a failed eval run scored 0.2 is blocked by a gate that asks for 0.9, and a green one scored 1.0 passes |
| PromotionOutcomes.NamedExactly | src/rya/deployments.py:54-68 | a promotion is refused for a blank name and for one with a slash, and blanks around a name do not count |
| PromotionOutcomes.NewVersionHoldsItsFacts | src/rya/deployments.py:87-169 | new content is recorded active under its agent and hash, and the provenance a gate asks for is looked up in the metadata its bundle came with |
| PromotionOutcomes.RetireRefusedExactly | src/rya/deployments.py:196-251 | an active version is not retired exactly while an environment of its agent points at it or a queued, running or waiting run is pinned to it |
| PromotionOutcomes.StartedRunHoldsItsVersion | src/rya/deployments.py:196-251 | a run started from an environment is queued for its agent and pinned to the version the environment points at, which is not retired until the run is over |
| PromotionOutcomes.ForcedRetireStopsRuns | src/rya/deployments.py:328-357 | an environment whose version was retired by force starts no run until its pointer is moved to an active version |
| PromotionOutcomes.RollbackGoesWhereTold | src/rya/deployments.py:360-415 | a rollback goes to the version it is told, or else to the last of the history, or is refused for the reason at hand; the replaced version joins the history and no gate is asked |
| LedgerStore.Store.CreateVersion | src/rya/deployments.py:87-169 | same content under the same agent is the same version; a bundle of another agent is refused |
| LedgerStore.Store.FindPinnedRuns | src/rya/deployments.py:196-211 | the runs pinned to a version that are not over |
| LedgerStore.Store.SetCurrentVersion | src/rya/store.py:1102-1114 | the pointer moves, and the version it pointed at goes to the end of the history |
| LedgerStore.Store.RequireVetting | src/rya/gates.py:448-481 | a forced promotion past a gate leaves its override in the version's log; a refused one leaves nothing |
| LedgerStore.Store.PromoteVersion | src/rya/deployments.py:257-309 | unknown, foreign and retired versions and blocked gates change nothing; otherwise one pointer moves |
| LedgerStore.Store.FindTarget | src/rya/deployments.py:386-410 | a rollback goes to the last version in the history unless told, and refuses the current one |
| LedgerStore.Store.RollBack | src/rya/deployments.py:360-415 | the pointer flips back without asking the gate |
| LedgerStore.Store.RetireVersion | src/rya/deployments.py:214-251 | refused while an environment of its own agent points at it or a live run is pinned to it, unless forced |
| LedgerRuns.RunKeepsInv | src/rya/deployments.py:214-309 | over every run each content has one version and each pointer names an existing version of its own agent; without forced retirements and stale pins that version is active and no live run is pinned to a retired one |
| LedgerRuns.PointersResolve | src/rya/deployments.py:312-357 | under those invariants an environment resolves for a new run exactly when it has a pointer |
| LedgerRuns.RetiredForGood | src/rya/deployments.py:214-251 | over every run retired content stays retired: its agent never has another version of it, and no promotion of it succeeds |
| LedgerRuns.ForcedRetireKeepsInvExactly | src/rya/deployments.py:214-251 | a forced retirement keeps the invariant exactly when it did not need the force |
| LedgerRuns.StalePinKeepsInvExactly | src/rya/turns.py:132-161 | a run started on a version its caller was holding keeps it exactly when that version is not retired |
| LedgerRuns.AgentMatchIsNeeded | src/rya/deployments.py:214-251 | without the agent half of the invariant the retire check would let a pointed-at version go |
| LedgerRuns.HistoryIsTheFlipLog | src/rya/store.py:1102-1114 | an environment's history followed by its pointer lists every pointer flip of the run, in order |
| LedgerRuns.EveryPointerWasVetted | src/rya/deployments.py:257-309 | with gated promotions and default rollbacks, every version an environment ever pointed at passed the gate in force, or left an override, when it first became current there |
| LedgerRuns.RollbackUndoesPromote | src/rya/deployments.py:360-415 | a default rollback right after a promotion restores the replaced pointer exactly when there was one, it was another version, and it is still active |
| BundleTree.Ignored | src/rya/bundles.py:155-163 | the last pattern that hits decides, a leading `!` re-includes, nothing hit is kept; what a hit is, is `BundleRules.OneRuleExactly` |
| BundleTree.Walk | src/rya/bundles.py:297-321 | the pruned walk collects exactly the regular files that no rule leaves out, that are no secret env files, and that lie in directories none of which is ignored from the root down |
| BundleTree.ReachedIsDone | src/rya/bundles.py:297-309 | pruning loses no directory that can be reached through directories which are not ignored |
| BundleRules.OneRuleExactly | src/rya/bundles.py:141-163 | one more rule takes a path, or with a leading `!` takes it back, exactly when its text matches the last name or, with a slash inside, the path from the root, and the path is a directory if the rule ends in a slash; otherwise the verdict stays |
| BundleRules.SlashesTakeNothing | src/rya/bundles.py:141-145 | a rule of slashes alone, negated or not, changes no verdict |
| BundleRules.DirRulesSpareFiles | src/rya/bundles.py:141-163 | rules that end in a slash change no verdict on a file |
| BundleRules.FlatRulesSeeTheLastName | src/rya/bundles.py:141-153 | rules without a slash inside treat alike any two paths of one kind with the same last name |
| BundleRules.AnchoredRulesSeeThePath | src/rya/bundles.py:141-153 | under rules with a slash inside the verdict depends only on what the patterns match of the path from the root |
| BundleRules.LaterRulesWin | src/rya/bundles.py:246-270 | the project's rules are laid over the default ones and those of the call over both: the last that matches decides |
| BundleRules.BuildIsKept | src/rya/bundles.py:87-163 | under the default rules a file `build` of the root is in the bundle, and a directory `build` is not, nor anything in it |
| BundleRules.KeptExactly | src/rya/bundles.py:131-139 | a regular file is in a bundle exactly when no rule takes it or a directory above it and its name is not `.env` or `.env.` and more, but for the three templates: no rule brings a secret in |
| BundleHash.EncodeContent | src/rya/bundles.py:232-243 | the digested bytes are the same whatever order the file map is enumerated in |
| BundleHash.SortedOnce | src/rya/bundles.py:235-242 | a set of paths has one sorted list |
| BundleHash.EncodingIsInjective | src/rya/bundles.py:232-243 | equal bytes come from equal file maps and equal SDK versions, for NUL-free paths, digests of one width and newline-free versions |
| BundleHash.VersionCanSpellAFile | src/rya/bundles.py:232-243 | a version that holds a newline can encode like a file |
| BundleArchive.Pack | src/rya/bundles.py:369-403 | the archive holds every file in path order and then the sidecar, whatever order the file map is in |
| BundleArchive.Folder.Unpack | src/rya/bundles.py:435-487 | every member is checked, and the size limit, before the first is written; then member after member up to the first that cannot be written |
| BundleArchive.Folder.Check | src/rya/bundles.py:406-432 | refused exactly for a member with an empty, absolute, drive-qualified or `..` name or of another kind than file and directory, or over the limit |
| BundleArchive.UnpackAcceptsExactly | src/rya/bundles.py:369-487 | unpacking takes what packing made exactly when no path is odd (leading backslash, colon in second place) and none lies inside the sidecar's place, and then restores every file |
| BundleArchive.ExtractedIsRooted | src/rya/bundles.py:406-487 | however an archive was made, unpacking it leaves a well-formed directory |
| BundleOutcomes.RefusedExactly | src/rya/bundles.py:406-470 | an archive is refused, and nothing written, exactly for a member that is neither file nor directory, whose name is empty, absolute, on a drive or climbs, or for more bytes in all than the limit |
| BundleOutcomes.UnwritableExactly | src/rya/bundles.py:470-487 | a checked member cannot be written exactly for a NUL in its name, a file in the place of a directory above it, or something of another kind in its own place; a file that is there is written over |
| BundleOutcomes.UnpackedHoldsTheFiles | src/rya/bundles.py:435-487 | after any unpacking that succeeds each file member is under its own path with its bytes, unless a later member has that path |
| Bundles.ReadIgnoreLines | src/rya/bundles.py:166-185 | the rules of an ignore file: stripped lines without blanks and comments |
| Bundles.BuildBundle | src/rya/bundles.py:246-340 | the manifest, its entrypoint, the kept files and their hash, or which of them is missing |
| BundleOutcomes.BuildAnswers | src/rya/bundles.py:246-340 | a build needs a manifest that names an entrypoint among the kept files; its bundle lists exactly the kept files, each with the digest of its bytes |
| BundleOutcomes.LinkedManifestIsNotKept | src/rya/bundles.py:246-321 | a manifest behind a link is read and not kept, so the project builds without its manifest among the files |
| BundleOutcomes.RulesAreLines | src/rya/bundles.py:166-185 | a text is a rule of an ignore file exactly when it is a line of it, stripped, that is neither blank nor a comment |
| BundleOutcomes.FirstLockfile | src/rya/bundles.py:78-82 | the lockfile of a bundle is the first of the known ones among its files, and none exactly when there is none |
| Bundles.KeptAgain | src/rya/bundles.py:297-321 | walking an unpacked file map by the rules that kept its files keeps them again; the sidecar joins them exactly when no rule leaves it out |
| Bundles.RoundTrip | src/rya/bundles.py:246-487 | build, pack, unpack and rebuild gives the same files, and the very same bundle when the manifest is among them and the sidecar is ignored |
| Bundles.SidecarIsIgnored | src/rya/bundles.py:87-112 | the default rules leave out the sidecar and anything in its place, unless the project's own rules take it back in |
| Bundles.SameBundleAgain | src/rya/bundles.py:246-487 | with its manifest and ignore file in the bundle, the sidecar not re-included and no odd path, a project rebuilds to the very same bundle, hash included |
| Bundles.Verify | src/rya/bundles.py:490-511 | the recomputed hash decides, not the sidecar |
| Bundles.SameHashSameFiles | src/rya/bundles.py:232-243 | equal content hashes come from equal paths and bytes |
| Bundles.VerifiedHoldsTheFiles | src/rya/bundles.py:490-511 | a directory that verifies against a bundle's hash holds exactly the files of that bundle |
| Bundles.Shelf.StoreBundle | src/rya/bundles.py:984-1006 | an archive that is already at the address is left alone |
| Bundles.Shelf.LoadBundle | src/rya/bundles.py:1009-1039 | missing, unsafe and mismatching archives are refused in that order |
| Bundles.LoadedHoldsTheFiles | src/rya/bundles.py:1009-1039 | whatever has become of the stored archives, what loads under a bundle's hash holds that bundle's files |
| Bundles.StoredLoads | src/rya/bundles.py:984-1039 | a project stored under its hash loads again |
| KeyIds.KeyIdParses | src/rya/keys.py:152-170 | a key id parses back to its parts exactly when the scope holds no dot |
| KeyIds.KeyIdIsUnambiguous | src/rya/keys.py:152-153 | two key ids are equal only for equal scopes and generations, dots or not |
| KeyStore.KeyFile.Current | src/rya/keys.py:254-260 | the newest generation of a workspace and its key |
| KeyStore.KeyFile.PutKey | src/rya/keys.py:262-267 | one generation is written, under the workspace's scope |
| KeyStore.KeyFile.DestroyAll | src/rya/keys.py:272-278 | every generation of the workspace is gone, and counted |
| KeyStore.WrappedKeyProvider.MintKey | src/rya/keys.py:560-575 | a fresh key is stored wrapped, read back, and cached under its id |
| KeyStore.WrappedKeyProvider.CurrentKey | src/rya/keys.py:577-590 | the newest key, from the cache or unwrapped, minted if there is none |
| KeyStore.WrappedKeyProvider.GetKey | src/rya/keys.py:592-613 | the key an id names, from the cache or else from the table |
| KeyStore.WrappedKeyProvider.RotateKey | src/rya/keys.py:615-624 | the next generation after the newest |
| KeyStore.WrappedKeyProvider.DestroyKeys | src/rya/keys.py:626-632 | the table row and every cached id under the workspace's prefix are gone |
| KeyStore.WrappedKeyProvider.SealText | src/rya/keys.py:665-672 | empty and sealed texts pass through; others become an envelope naming their key |
| KeyStore.WrappedKeyProvider.OpenText | src/rya/keys.py:674-719 | the refusals of an envelope in their order, then the decryption under the key it names |
| KeyRuns.RunKeepsInv | src/rya/keys.py:536-632 | in every state of every run that opens no misspelled envelope the cache holds only what the table unwraps to |
| KeyRuns.OpenKeepsCacheExactly | src/rya/keys.py:592-613 | opening keeps that so exactly when the envelope does not reach a stored scope by another spelling |
| KeyRuns.EvictionMissesOtherSpellings | src/rya/keys.py:626-632 | a key cached under another spelling of its scope outlives the shredding of its workspace |
| KeyRuns.DefaultMisnames | src/rya/keys.py:144-149 | such a spelling: the name that stands for no tenant, written out |
| KeyRuns.OpensExactlyUntilShredded | src/rya/keys.py:665-747 | over every run, misspelled openings included: a value sealed for a separator-free workspace opens for every permitted reader across rotations and other workspaces' shredding, and stops for good once its own workspace is shredded, generation 1 re-minted or not |
| KeyRuns.PrunedRunIsSpelled | src/rya/keys.py:592-632 | what misspelled openings leave in the cache changes nothing else: without it, every run is a run without them |
| KeyRuns.ShreddedKeysNeverOpen | src/rya/keys.py:626-719 | in runs that open no misspelled envelope, nothing sealed under a key of a shredded workspace opens afterwards, under whatever id it is put |
| KeyRuns.GoneStays | src/rya/keys.py:560-632 | re-using a generation number does not bring a key back |
| KeyRuns.RotationTakesOver | src/rya/keys.py:615-624 | after a rotation the workspace seals under the new key, one generation on |
| KeyRuns.SealOpensExactly | src/rya/keys.py:665-719 | what a workspace seals it can open exactly when its scope holds neither a dot nor a colon |
| KeyRings.SealedOnce | src/rya/keys.py:665-672 | nothing and sealed texts are handed back as they are, sealing twice is sealing once, and no other text comes back unsealed |
| KeyRings.OpensAsItself | src/rya/keys.py:674-692 | a text that is no envelope of this ring opens as itself |
| Streams.StreamStore.Append | src/rya/store.py:684-692 | frames go behind those there are, numbered on from their count |
| Streams.StreamStore.Read | src/rya/store.py:694-698 | the frames with a higher number than the cursor, in order |
| Streams.AppendKeepsOrder | src/rya/store.py:684-692 | every stream stays numbered 0 to n-1 and only grows |
| Streams.SqlNumbersAlike | src/rya/store_postgres.py:715-726 | one past the highest number is the length, so the table numbers an append as the file does |
| Streams.EachFrameOnce | src/rya/store.py:684-698 | a reader that reconnects with its last number receives each frame exactly once and in order under any interleaving with appends, and a connection not cut short brings it up to date |
| Streams.Tail | src/rya/api/app.py:1105-1142 | a connection that polls a growing buffer sends what one read of it at the last poll would send, up to the first frame that ends the connection |
| Streams.SentExactly | src/rya/api/app.py:1105-1142 | a connection sends everything up to an error, the end of a run or, where asked, a pause, and everything there is when none comes |
| Streams.IsTerminal | src/rya/turns.py:442-451 | the first terminal frame of a batch |
| Turns.RunTurn | src/rya/turns.py:176-214 | the frames an attempt adds and the queue after it; it raises exactly when the queue refuses its report, and then the queue is as it was; otherwise the job is completed with the run as output if the handler returned, cancelled if that was asked for, and if the handler raised pending again or dead-lettered, with the error kept |
| Turns.EndReturned | src/rya/turns.py:203-214 | a refused completion adds an error frame behind the run frame and a failure that is refused too |
| Turns.AttemptIsFramed | src/rya/turns.py:182-214 | an attempt on a non-empty stream starts with a restart frame and no other does; every attempt that is not cut off ends with a run or error frame |
| Turns.FramesInOrder | src/rya/turns.py:182-214 | an attempt streams the seam if there are frames already, then what the handler emitted, then its replies in order and the run frame, or its error |
| Turns.AttemptIsStreamed | src/rya/store.py:684-698 | a reader that has seen the whole stream receives exactly the frames of the next attempt |
| Turns.OneTerminalFrameExactly | src/rya/turns.py:203-214 | only the last frame of an attempt is terminal exactly when its report is accepted, it raised, or it reported no ending |
| Turns.FirstIsFinalExactly | src/rya/turns.py:442-451 | the first terminal frame of a turn's stream is the final one exactly when its attempts make one ending in all, by raising, by reporting a terminal status, or by a refused report |
| Turns.RetriedTurn | src/rya/turns.py:442-451 | a turn that raised once and then completed has two: its readers stop at the error |
| Turns.RunAll | src/rya/turns.py:234-236 | whatever has become of the claimed turns, they run in order until a report is refused, which happens exactly for a turn that is neither held nor cancelled; the jobs of those before it ended as their handlers ended, those behind it are untouched |
| Turns.ExecutePending | src/rya/turns.py:217-236 | what is claimed is held and belongs to no other version or agent; if others leave every report acceptable meanwhile, every claimed turn is over and its job ended as its handler ended, otherwise the first refused report ends the call and leaves the turns behind it claimed and unrun |
| TurnEvents.EventStore.Submit | src/rya/turns.py:107-166 | the run is admitted, then written, and only then its turn enqueued under its own admission |
| TurnEvents.RunIsStrandedExactly | src/rya/turns.py:130-166 | a queued run without a turn is left exactly when the run is admitted while the queue is at its depth ceiling, and the caller is told the quota is exceeded |
| TurnEvents.EventLeaves | src/rya/turns.py:107-166 | an accepted event leaves a queued run on the version the caller held and one pending turn that names it, due at once, keyed by that version |
| TurnEvents.StrandedRun | src/rya/turns.py:130-166 | such an event: one job waiting where one is the ceiling |
| TurnEvents.RunKeepsInv | src/rya/turns.py:83-103 | over every run of events, turns and queue calls a turn that adopts a run carries that run's version and agent |
| TurnEvents.RunsOnItsPin | src/rya/turns.py:83-103 | over every run, a worker that names its version or agent keeps the turn of a run only if the run was pinned to it |
| Approvals.ApprovalStore.Resume | src/rya/turns.py:302-344 | the objections in their order; then the decision is saved before the job is enqueued, whatever the queue answers |
| Approvals.ApprovalStore.Reject | src/rya/turns.py:376-415 | undecided and approving approvals are rejected and their run with them |
| ApprovalRuns.RunKeepsInv | src/rya/turns.py:302-344 | over every run an approval has at most one resume job, none while undecided, and every resume job carries the tags of the run that paused |
| ApprovalRuns.AtMostOneResume | src/rya/turns.py:302-344 | each approval gets at most one resume job |
| ApprovalRuns.DecisionsAreFinal | src/rya/turns.py:302-415 | nothing is enqueued for an approval once it is decided, rejection included; what is carried out or rejected stays so |
| ApprovalRuns.SettledOnce | src/rya/runtime/engine.py:558-634 | an approval is carried out or rejected once at most |
| ApprovalRuns.ApprovingLeaves | src/rya/turns.py:302-344 | an approval is taken exactly while undecided and its run waits; it is on record whatever the queue says, and its resume is one pending job, due at once, keyed by the version of the run |
| ApprovalRuns.RejectionEndsTheRun | src/rya/turns.py:376-415 | a rejection is taken unless the approval was carried out or rejected, and leaves the approval and its run rejected and all else as it was |
| ApprovalRuns.CarryingOutResumesTheRun | src/rya/runtime/engine.py:558-612 | an approval is carried out exactly for a run that waits for it and an action that does not raise; then it is approved and the run goes on |
| ApprovalRuns.RejectedIsNotCarriedOut | src/rya/turns.py:376-415 | over every run, after a rejection no worker carries the approval out, not by a resume enqueued before it either |
| ApprovalRuns.ResumeHasAJobExactly | src/rya/turns.py:328-344 | an accepted approval has its job exactly when the quota admits a job at the queue's depth; otherwise it stays approving without one |
| ApprovalRuns.ResumedByItsOwn | src/rya/turns.py:361-373 | a claim that names a version or an agent keeps a resume only of what the paused run recorded |
| NamedLeases.LeaseStore.AcquireLease | src/rya/store.py:1163-1202 | refused exactly while another holder's lease is unexpired; a renewal keeps its start |
| NamedLeases.LeaseStore.ReleaseLease | src/rya/store.py:1204-1211 | answered true exactly for the holder on file, and then the lease is gone and no other touched; otherwise every lease is as it was |
| NamedLeases.ReleaseFreesTheName | src/rya/store.py:1163-1211 | after a release by the holder anyone who asks is given the name at once as a lease that starts then; a release by anyone else changes nothing, and no release touches another name |
| NamedLeases.ReleasedIsFree | src/rya/store.py:1163-1211 | the same over every run, whatever was done about other names in between |
| NamedLeases.StrangersReleaseNothing | src/rya/store.py:1204-1211 | over every run a release by anyone but the holder on file leaves every lease as it is |
| NamedLeases.SlugIsItsOwnExactly | src/rya/store.py:58-66 | a name keeps a file of its own exactly when it is not empty and holds only safe characters |
| NamedLeases.SqlGrantsAlike | src/rya/store_postgres.py:1325-1359 | both stores grant on the same conditions and write the same lease; their renewal flags differ exactly in the second the lease was first taken |
| NamedLeases.TrustIsFounded | src/rya/store.py:1163-1211 | a holder whose latest grant is unexpired and unreleased is the holder on file, whatever the others tried |
| NamedLeases.OneHolderAtATime | src/rya/store.py:1163-1211 | under a clock that does not go back, two holders with such grants of one name are the same process |
| NamedLeases.RenewalsKeepTheStart | src/rya/store.py:1193-1197 | while one process holds a name, renewals never move the moment it took over |
| NamedLeases.GrantsLast | src/rya/store.py:1193-1197 | a grant is unexpired at the moment it is made, however short the time asked for |
| Groups.GroupStore.CreateGroup | src/rya/store.py:536-542 | a new group counts from its size, neither fired nor failed |
| Groups.GroupStore.JobDone | src/rya/store.py:544-565 | one report: a failure marks the group, a success counts down to nought and fires there, once, unless marked |
| Groups.FiresExactly | src/rya/store.py:551-565 | a report fires exactly when it is the success that makes up the count and no failure came before it |
| Groups.FiresAtMostOnce | src/rya/store.py:551-565 | no group fires twice |
| Groups.FiresOnceExactly | src/rya/store.py:551-565 | a group fires exactly when its last success needed comes before every failure |
| Groups.SqlAnswersAlike | src/rya/store_postgres.py:322-340 | counting below nought changes no answer |
| Groups.StoresAnswerAlikeExactly | src/rya/store_postgres.py:322-340 | after the same calls the two stores answer a report alike exactly when it is a success or names a group that exists |

## Left out

- Interleavings inside a call, lock files and concurrent SQL statements: the code gives no guarantee there.
- `updatedAt`, tags of jobs and versions, and the `name__agent` file stem: environments are keyed by name and agent.
- Runtime engine, worker, broker and supervisor: a handler run is any sequence of frames and an ending; the broker-mediated store is not modelled.
- `resolve_on_stream`, `_run_resume` and the loop of `execute_resumes`: the same claim discipline as `Turns.ExecutePending`, with the engine's `approve` as the step `Approvals.CarryOut`.
- The deployment and derived key providers, KMS, the Postgres key table and `reseal`: the wrapped provider over the file store is modelled.
- Key ids whose generation has a sign, blanks or underscores, which Python's `int` takes: such an id is refused here.
- Unicode: `strip` knows four blanks, and texts stand for their UTF-8 bytes, which keep the order of code points.
- `Turns.RunTurn`: replies that cannot be read back from the session are not modelled as an error of the attempt.
- `sizeBytes`, the parsed manifest of a bundle, and the bytes of the sidecar, which are a parameter.
- Symbolic links already in the directory an archive is unpacked into, and the archive file `load_bundle` puts beside its members: the directory starts out empty.
- The object-store arm of the archive store, workspace namespaces and their fallback address.
- A directory is walked in no particular order here, and a list of documents comes in no particular order before it is sorted.
- `BackoffDelays.BackoffGrowsWithinBounds`: starts at the first attempt; the source's formula at attempt 0 (half the base, never reached by a claimed job) is modelled but not claimed about.
- The daily figures behind a quota (runs, tokens, cost): they are facts admission reads.
- Snapshots, evals, guards, egress, accounts, CLI, console and client: input and output, or only easy properties.
