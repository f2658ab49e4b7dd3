# cfwarp service evaluation, verified

A Dafny model of the service evaluator of cfwarp: the observer that queues probes of WARP lanes, leases
them to workers, keeps their evidence and says which egresses work; and the brushing runs that change an
egress under a transactional protocol. The proofs are checked with `dafny verify dfyconfig.toml`.

## What is modelled

- `Catalog`, `Text`, `Lanes`, `Capability`, `Provenance`: the scenario catalogue, the lane allowlist, lane
  descriptors and their trip to a worker and back, capability ids, and the provenance of observations.
- `Queue`: the leased job queue as three tables, and what each store method makes of them.
  `QueueInvariants` shows what every method keeps; `Recovery` is the restart.
- `QueueRuns`, `QueueTheorems`: whole runs. Every store method is one transaction under one lock, so a run
  is a sequence of atomic events in which the steps of different requests interleave freely, on a clock
  that does not go backwards. `Expiry` adds the claim request with the expiry call it starts with,
  and `LeaseLife` follows a lease from its claim to the answer of its worker.
- `Store`: the store as an object whose methods update its tables row by row, each proved to do exactly
  what the specification says.
- `Evidence`, `Discovery`, `Freshness`: the newest evidence of a cell, the summary and egress endpoints,
  the health verdict, age-based retention, and when exactly a displaced pass is served again.
  `Served` says what is served, and what is deleted, of the stored rows and their fields.
  `LostReports` follows the observer's own reports from the lost lease to the verdict, and `Witnesses` holds
  runs from the empty database in which a promise is not kept.
- `Scheduler`, `SweepRate`: one scheduler pass, its exact coverage, and over whole runs its coverage among
  other requests and the rate bound.
- `Brush`, `BrushRunner`, `BrushTheorems`, `BrushRuns`, `BrushOutcomes`: a brushing run as a function of a script that
  decides the fate and result of every external operation; the objects that carry it out; the control
  protocol as an automaton; non-interference of performance; the cooldown across runs and crashes, with
  the exact condition under which a lane is free again; and what a run decides when nothing fails.
- `YouTube`: the format-evidence fold and the verdict of the attempt loop.

Times are whole seconds. A uuid4 is a number that was never drawn before; observation ids of submitted
payloads are the worker's choice among drawn numbers. The digest in `completion_key` stands for the payload
it was taken from, and is kept apart from a lease token. `unknown_observation` over the configured lanes is
a function value, the reporter, which fails for a lane that is not configured. The order in which a query
returns rows is a free sequence of ids. Run-group requests name at least one lane
and one scenario, as the API demands. The tier of a lane is a parameter of a scheduler pass. In a
brushing run the wall clock and the monotonic clock are functions of the number of operations so far, so
readings between two operations agree.

## Where the code does not keep a promise

- A completion whose observation id is already stored replaces that row (`INSERT OR REPLACE`). If the row
  had displaced an older pass of another cell, that pass is served again: `Freshness.StalePassReturnsExactly`
  says exactly when, `Witnesses.StalePassRevived` gives the run. The ledger is broken by exactly such
  completions: `QueueInvariants.CompleteKeeps`; its theorems assume that submitted ids are not stored yet.
- `expire_leases` looks every lane up before closing its task. A second attempt that is overdue on a lane
  that is no longer configured makes each call raise and roll back, for every lane, and since every claim
  expires leases first, no worker gets a job any more: `Expiry.ExpirySettlesAllOrNone`,
  `Expiry.RemovedLaneStopsExpiry`, `Expiry.RemovedLaneStopsClaims`. Before that, a claim that takes a task of
  such a lane is answered by an error although the task is leased. `Expiry.ClaimAnswersExactly` says exactly
  when either happens, `Witnesses.RemovedLaneStopsWorkers` gives the run.
- The observer's report about lost or failed work carries the observer's own evaluator build, and is read
  back against the build of the lease. When the two differ the report is broken evidence: the cell is not
  undecided but never fresh, and the verdict is `offTrack`: `LostReports.LostWorkStandsByBuild` says exactly
  when, `Witnesses.FailedWorkIsBrokenEvidence` gives the run.
- The exception handler of a brushing run rolls back even a committed trial, if and only if a journal write
  after the commit raises and the trial has a truthy id; the result may still say `succeeded`:
  `BrushTheorems.CommitsAreUndoneExactly`, `BrushTheorems.UndoneSuccess`.
- The promise that every prepared trial is rolled back, committed or recorded holds for a returning run
  exactly when no trial left open came without a truthy id: `BrushTheorems.NothingLostExactly`. A trial
  without an id is always lost, one with a falsy id for instance when the deadline passes early:
  `BrushTheorems.NamelessTrialIsLost`, `BrushTheorems.FalsyTrialIsLost`.
- Nothing releases the journal row of a brushing run that raised out of the journal or died: its lane is
  refused for good, `BrushRuns.BrokenRunLocksLane`.
- A group created for no lane or no scenario would stay queued without a task:
  `QueueInvariants.SubmitKeeps` says when groups and tasks stay in agreement.

## Model

| member | source | states |
|---|---|---|
| Lanes.LoadLanes | service-eval/src/cfwarp_service_eval/config.py:107-240 | the allowlist is accepted if and only if it is non-empty, every entry reads, and no id repeats; entries keep their order and every lane read satisfies what the service relies on |
| Lanes.ReadLaneLoads | service-eval/src/cfwarp_service_eval/config.py:113-239 | an entry that reads gives a lane whose texts are filled, whose region is the normalised raw region, and whose scenarios are distinct catalogue names |
| Lanes.InferredExactly | service-eval/src/cfwarp_service_eval/config.py:274-289 | the substrate and protocol of a lane that does not name them, from profile prefix, composition and transport |
| Lanes.RegionOfLetters | service-eval/src/cfwarp_service_eval/config.py:263-271 | a two-letter region in either case is its upper-case code, and UK is GB |
| Lanes.DescriptorRoundTrip | service-eval/src/cfwarp_service_eval/config.py:76-104 | dropping `capability_id` from the worker descriptor and rebuilding the lane (worker.py:184-186) gives the same public descriptor for every worker class, with the listener chosen for that class |
| Lanes.PostInitInvertsCanonical | service-eval/src/cfwarp_service_eval/config.py:58-63 | reading back the canonical scenario names of a lane gives its own short names, in order |
| Catalog.CatalogWellFormed | contracts/scenarios-v1.json:1-109 | the shipped catalogue has one definition per short id and per canonical id |
| Catalog.CanonicalNamesRoundTrip | service-eval/src/cfwarp_service_eval/config.py:58-63 | the alias table takes a canonical scenario id back to the short id it was published for |
| Provenance.UpgradeCopiesLoadedLane | service-eval/src/cfwarp_service_eval/provenance.py:93-158 | on the descriptor of a loaded lane no fallback of `observation_v2` applies: every provenance field is the descriptor's own |
| Provenance.WorkerObservationAccepted | service-eval/src/cfwarp_service_eval/provenance.py:48-90 | an observation upgraded by a worker on its rebuilt lane validates against the observer's lane if and only if it names the leased scenario canonically, carries sound evidence and ran the leased evaluator build; UK becomes GB on both sides |
| Provenance.CopyValidates | service-eval/src/cfwarp_service_eval/provenance.py:48-90 | an observation upgraded on one lane, scenario and catalogue validates against another if and only if the two public descriptors agree on everything but the declared scenarios, the scenario definitions agree, the evidence is sound and canonically named, and the evaluator build fits |
| Provenance.OnlyCopiesValidate | service-eval/src/cfwarp_service_eval/provenance.py:48-90 | whatever is stored or submitted, what validates against a loaded lane is exactly a sound copy of that lane's public descriptor under the definition of that scenario |
| Provenance.UnknownObservationValidates | service-eval/src/cfwarp_service_eval/store.py:1092-1129 | the observer can always write its report about lost work on a loaded lane, and the report validates if and only if the lease recorded the observer's own evaluator build or none |
| Provenance.ReportableDecides | service-eval/src/cfwarp_service_eval/store.py:1092-1129 | whether an `unknown` observation can be built depends on the lane and the scenario only, never on time or id |
| Provenance.RepairIsIdempotent | service-eval/src/cfwarp_service_eval/store.py:207-253 | repairing a repaired row changes nothing, whichever build repairs it next |
| Provenance.RepairedRowValidates | service-eval/src/cfwarp_service_eval/store.py:207-253 | a repaired version 1 row of a loaded lane validates if and only if its result is sound and the repairing build is the one it is compared with |
| Capability.FitsPatternDecides | contracts/observation-v2.schema.json:54-57 | the decoder from the right end decides the capability pattern of the schema |
| Capability.PatternIsUnambiguous | contracts/observation-v2.schema.json:54-57 | the pattern reads an id in at most one way although substrates may contain dashes |
| Capability.LoadedLaneMatchesPattern | service-eval/src/cfwarp_service_eval/config.py:65-74 | the id of every loaded lane fits the pattern and decodes to the lane's own substrate, region, protocol and IP stack |
| Capability.CapabilityIdsDecodeUniquely | service-eval/src/cfwarp_service_eval/config.py:65-74 | two loaded lanes share an id if and only if they agree on every part, up to an absent region against a literal ZZ |
| Store.Store.constructor | service-eval/src/cfwarp_service_eval/store.py:65-122 | a new store is empty |
| Store.Store.CreateGroup | service-eval/src/cfwarp_service_eval/store.py:313-353 | inserting lane by lane and scenario by scenario makes of the database what `Submit` says; QueueFull and a violated UNIQUE or catalogue lookup leave nothing behind |
| Store.Store.InsertTasks | service-eval/src/cfwarp_service_eval/store.py:335-352 | the nested inserts succeed if and only if no cell repeats and every scenario is known, and then add exactly the new tasks in order |
| Store.Store.ClaimTask | service-eval/src/cfwarp_service_eval/store.py:577-638 | the queued task that is first by group age, ordinal and id is leased under a new token, and its group becomes running |
| Store.Store.ExpireLeases | service-eval/src/cfwarp_service_eval/store.py:529-575 | every overdue lease is requeued or closed with an observation, the reply counts them, and one that cannot be reported rolls the whole call back |
| Store.Store.CompleteLeasedTask | service-eval/src/cfwarp_service_eval/store.py:640-676 | the five ways a completion can end, and the exact new state of each |
| Store.Store.FailLeasedTask | service-eval/src/cfwarp_service_eval/store.py:678-709 | the ways a worker failure can end, and the exact new state of each |
| Store.Store.ReconcileGroup | service-eval/src/cfwarp_service_eval/store.py:711-723 | the group completes exactly when no task of it is queued or running |
| Store.Store.CloseUnleased | service-eval/src/cfwarp_service_eval/store.py:138-165 | observations first and statuses after amount to closing the un-leased running rows one by one; it fails if and only if one of them cannot be reported |
| Store.Store.Backfill | service-eval/src/cfwarp_service_eval/store.py:207-253 | the row-by-row repair fails if and only if some row cannot be upgraded, and otherwise repairs every row |
| Store.Store.SupersedeUnconfigured | service-eval/src/cfwarp_service_eval/store.py:177-193 | exactly the queued tasks of lanes that are no longer configured are superseded |
| Store.Store.SupersedeDuplicates | service-eval/src/cfwarp_service_eval/store.py:255-286 | walking the pending tasks in queue order with a set of claimed cells supersedes exactly the queued tasks that have an older pending copy |
| Store.Store.Recover | service-eval/src/cfwarp_service_eval/store.py:131-175 | a whole restart does what the specification `Recover` says, or raises and changes nothing |
| Store.Store.LatestByScenario | service-eval/src/cfwarp_service_eval/store.py:897-918 | the dictionary holds, for exactly the scenarios with evidence, the newest row of the cell with its recorded evaluator build |
| Store.Store.PruneAged | service-eval/src/cfwarp_service_eval/store.py:1016-1027 | exactly the complete groups older than the cutoff are deleted, with all that belongs to them |
| Store.Store.PruneToSize | service-eval/src/cfwarp_service_eval/store.py:1028-1034 | the size loop ends within the bound or with no complete group left, deletes oldest groups first, never an open one, and stops as soon as the state fits |
| Store.Store.Prune | service-eval/src/cfwarp_service_eval/store.py:1016-1034 | age first, then size: one retention event of a run |
| QueueInvariants.EmptyCore | service-eval/src/cfwarp_service_eval/store.py:76-122 | the empty database is consistent |
| QueueInvariants.SubmitKeeps | service-eval/src/cfwarp_service_eval/store.py:313-353 | creating a group keeps groups and tasks in agreement if and only if the request names a lane and a scenario; a refused request changes nothing |
| QueueInvariants.CreatedGroupHoldsItsCells | service-eval/src/cfwarp_service_eval/store.py:322-352 | a created group holds one fresh queued task for each requested lane and scenario, of the scenario's worker class, numbered lane by lane, and changes nothing else |
| QueueInvariants.CellsAreLaneMajor | service-eval/src/cfwarp_service_eval/store.py:336-352 | the order of the nested inserts |
| QueueInvariants.CellsDistinct | service-eval/src/cfwarp_service_eval/store.py:336-352 | lists without repetition never violate the UNIQUE constraint |
| QueueInvariants.ClaimKeeps | service-eval/src/cfwarp_service_eval/store.py:577-638 | a claim keeps every invariant and revives no completed group |
| QueueInvariants.ClaimTakesTheOldest | service-eval/src/cfwarp_service_eval/store.py:588-637 | work is found if and only if a queued task of the class exists; it is the one whose group was created first, then of the smallest ordinal, then of the smallest id; it gets a token that no task carries, and every other task is unchanged |
| LeaseLife.FirstComeFirstServed | service-eval/src/cfwarp_service_eval/store.py:588-600 | over whole runs no queued task is overtaken by work of its class that was enqueued at a later time |
| LeaseLife.CompletionAnswersExactly | service-eval/src/cfwarp_service_eval/store.py:640-676 | each reply to a completion if and only if the task's fields are so; accepted exactly while the lease runs under this token, and then the task is complete with this evidence stored under its cell and nothing else changed |
| LeaseLife.FailureAnswersExactly | service-eval/src/cfwarp_service_eval/store.py:678-709 | each reply to a worker failure if and only if the task's fields are so, and what an accepted one changes |
| LeaseLife.LeaseLasts | service-eval/src/cfwarp_service_eval/store.py:529-575 | a leased task stays as the claim left it until its time runs out or its own worker answers, whatever expiry, restart, retention and other requests do |
| LeaseLife.TimelyAnswersAreHeard | service-eval/src/cfwarp_service_eval/store.py:663-676 | so a completion under the claim's token within the leased seconds is accepted if nobody answered before, and so is a failure if the cell can be reported |
| QueueInvariants.ExpireKeeps | service-eval/src/cfwarp_service_eval/store.py:529-575 | an expiry pass keeps every invariant |
| QueueInvariants.CompleteKeeps | service-eval/src/cfwarp_service_eval/store.py:640-676 | a completion keeps every invariant, and an accepted one keeps the one-to-one ledger of outcomes and observations if and only if its observation id is not stored yet |
| QueueInvariants.FailKeeps | service-eval/src/cfwarp_service_eval/store.py:678-709 | a worker failure keeps every invariant and the ledger |
| QueueInvariants.DeleteKeeps | service-eval/src/cfwarp_service_eval/store.py:1036-1040 | deleting complete groups keeps every invariant and leaves the open groups alone |
| QueueInvariants.ObservationsCountSettledTasks | service-eval/src/cfwarp_service_eval/store.py:1042-1058 | there are as many stored observations as complete and unknown tasks |
| Queue.ReporterIsHonest | service-eval/src/cfwarp_service_eval/store.py:1092-1129 | `unknown_observation` over fixed lanes is an ineligible observation of its own time, lasting a day |
| Recovery.RecoveredStatus | service-eval/src/cfwarp_service_eval/store.py:131-175 | lost un-leased work becomes unknown, removed and duplicate queued work is superseded, and every other task is unchanged |
| Recovery.RecoveryReportsLostWork | service-eval/src/cfwarp_service_eval/store.py:138-154 | every lost un-leased task gets an `unknown` observation of this restart |
| Recovery.RecoveryKeepsLeases | service-eval/src/cfwarp_service_eval/store.py:131-175 | running leased tasks and finished tasks are unchanged |
| Recovery.RecoveryKeepsPendingCells | service-eval/src/cfwarp_service_eval/store.py:177-193 | every pending cell of a configured lane stays pending, unless it was only an un-leased running row |
| Recovery.RecoveryLeavesOldestQueued | service-eval/src/cfwarp_service_eval/store.py:255-286 | a cell keeps at most one queued task: the pending copy whose group was created first, then of the smallest ordinal, then of the smallest id |
| Recovery.RecoveryKeepsEvidence | service-eval/src/cfwarp_service_eval/store.py:195-253 | no stored observation changes its id, times, result or failure layer; every added row is an `unknown` report of this restart |
| Recovery.RecoveryRestoresGroups | service-eval/src/cfwarp_service_eval/store.py:164-172 | afterwards groups agree with their tasks, and exactly groups with a live lease can be running |
| Recovery.RecoveryIsIdempotent | service-eval/src/cfwarp_service_eval/store.py:131-175 | a second restart with the same lanes changes nothing |
| Recovery.RepairerIsSteady | service-eval/src/cfwarp_service_eval/store.py:207-253 | the provenance repair keeps the evidence, needs no second pass, and never fails on published lanes |
| Recovery.RecoverKeeps | service-eval/src/cfwarp_service_eval/store.py:131-175 | in leased mode a restart keeps every queue invariant |
| QueueRuns.StepKeeps | service-eval/src/cfwarp_service_eval/store.py:64-75 | every atomic operation keeps the invariants |
| QueueRuns.CoreHoldsThroughout | service-eval/src/cfwarp_service_eval/store.py:313-323 | in every reachable state groups agree with tasks, attempts are bounded, and open groups never exceed the cap |
| QueueRuns.ExpireExact | service-eval/src/cfwarp_service_eval/store.py:529-575 | what an expiry pass does to every task, group and observation |
| QueueRuns.StepFacts | service-eval/src/cfwarp_service_eval/store.py:529-709 | the only moves any operation can make with a task, a group and an observation |
| QueueTheorems.OutcomesAreFinal | service-eval/src/cfwarp_service_eval/store.py:659-667 | complete, unknown and superseded are absorbing: the row is frozen for as long as it exists |
| QueueTheorems.ExactlyOneObservation | service-eval/src/cfwarp_service_eval/store.py:1042-1058 | in every reachable state a task has an observation if and only if it is complete or unknown, and only one |
| QueueTheorems.CompletionAddsOneRow | service-eval/src/cfwarp_service_eval/store.py:1046-1058 | an accepted completion adds one observation if and only if its id is not stored yet |
| QueueTheorems.CompletionIsIdempotent | service-eval/src/cfwarp_service_eval/store.py:659-662 | after an accepted completion the same evidence is a duplicate, anything else conflicts, and neither changes the state |
| QueueTheorems.FailureIsIdempotent | service-eval/src/cfwarp_service_eval/store.py:693-694 | after an accepted failure the same token is a duplicate, anything else conflicts, and neither changes the state |
| QueueTheorems.LostTokensStayLost | service-eval/src/cfwarp_service_eval/store.py:600-617 | a token a task no longer carries never comes back to it |
| QueueTheorems.StaleWorkersAreFenced | service-eval/src/cfwarp_service_eval/store.py:663-666 | a worker whose lease was lost can neither complete nor fail the task, whatever happened since |
| QueueTheorems.TokensComeFromClaims | service-eval/src/cfwarp_service_eval/store.py:600-617 | every token a task carries was issued by one claim, with the evaluator build on record |
| QueueTheorems.AcceptedBuildIsTheLeasedBuild | service-eval/src/cfwarp_service_eval/api.py:662-682 | check-then-complete is safe under any interleaving: an accepted observation names the evaluator build recorded on the lease whose token was accepted |
| QueueTheorems.WorkIsBounded | service-eval/src/cfwarp_service_eval/store.py:39 | a task changes at most four times in any run: every change uses up rank |
| QueueTheorems.QueueRankFalls | service-eval/src/cfwarp_service_eval/store.py:547-573 | every event that creates no task and changes some task strictly lowers the total rank |
| QueueTheorems.FinishedGroupsStayFinished | service-eval/src/cfwarp_service_eval/store.py:620-626 | a completed group is never revived |
| Expiry.ScenariosStayKnown | service-eval/src/cfwarp_service_eval/store.py:335-352 | in every reachable state every task is for a scenario of the catalogue |
| Queue.ReportsConfiguredLanes | service-eval/src/cfwarp_service_eval/store.py:557-561 | an observer can write an `unknown` observation for a cell of a catalogue scenario if and only if the cell's lane is configured |
| Expiry.ExpirySettlesAllOrNone | service-eval/src/cfwarp_service_eval/store.py:529-575 | in every reachable state an expiry call settles all overdue leases and nothing else, unless a second attempt on a lane that is not configured is overdue: then it changes nothing |
| Expiry.RemovedLaneStopsExpiry | service-eval/src/cfwarp_service_eval/store.py:557-561 | a second attempt that is overdue on a lane no observer has configured any more stops all expiry, for every lane, and stays running in every continuation |
| Expiry.HandleClaim | service-eval/src/cfwarp_service_eval/api.py:610-640 | the claim request: expiry, claim, lookup of the lane, and the reply to each |
| Expiry.RemovedLaneStopsClaims | service-eval/src/cfwarp_service_eval/api.py:620-626 | meanwhile every claim of every worker is answered by an error and changes nothing |
| Expiry.ConfiguredClaimsAreServed | service-eval/src/cfwarp_service_eval/api.py:610-640 | while all pending tasks are on configured lanes no claim fails, and a worker gets no job if and only if no task of its class is queued or has an overdue first lease |
| Expiry.ClaimAnswersExactly | service-eval/src/cfwarp_service_eval/api.py:610-640 | the reply to every claim, from the reachable state before it: an error if and only if a second attempt on an unconfigured lane is overdue or the next task of the class is on one; no job if and only if nothing is queued or to be requeued; otherwise the next task in queue order |
| Witnesses.RemovedLaneStopsWorkers | service-eval/src/cfwarp_service_eval/api.py:610-640 | such a run from the empty database: enqueue, claim, restart without the lane; the next claim fails and yet takes a second lease, and after that lease every claim fails |
| Evidence.LatestIsNewest | service-eval/src/cfwarp_service_eval/store.py:897-918 | evidence is missing only for a cell without rows, and nothing of the cell is newer than it |
| Discovery.CellSummary | service-eval/src/cfwarp_service_eval/api.py:715-755 | the counters of the loop are the sizes of the sets of declared cells with evidence, with current evidence, and with each verdict |
| Discovery.LaneSummary | service-eval/src/cfwarp_service_eval/api.py:721-748 | the counters of one lane |
| Discovery.CountCell | service-eval/src/cfwarp_service_eval/api.py:725-748 | the cell is counted by the standing of its evidence alone: whether evidence that validates calls itself eligible never changes its bucket |
| Discovery.TallyNests | service-eval/src/cfwarp_service_eval/api.py:749-755 | the buckets sum to the expected cells, and available + unavailable <= fresh <= evaluated <= expected |
| Discovery.PartitionSummaries | service-eval/src/cfwarp_service_eval/api.py:1061-1071 | one summary for every (node, origin) of a configured lane |
| Discovery.Partition | service-eval/src/cfwarp_service_eval/api.py:1065-1069 | the lanes of one origin, in allowlist order |
| Discovery.PartitionsAddUp | service-eval/src/cfwarp_service_eval/api.py:1061-1071 | in any order the partition counts add up to the summary of the whole observer |
| Discovery.Egresses | service-eval/src/cfwarp_service_eval/api.py:837-886 | the list holds exactly one entry, made from the newest evidence, for each asked-for lane whose newest evidence is valid, unexpired and available; 422 exactly for a scenario that is not enabled |
| Discovery.AvailableIsDiscovered | service-eval/src/cfwarp_service_eval/api.py:837-886 | the available count equals the egresses summed over enabled scenarios, restricted to lanes that declare them |
| Discovery.CoveredMeansCurrent | service-eval/src/cfwarp_service_eval/reporter.py:312-317 | a node passes the coverage test if and only if every declared enabled cell has validated, unexpired newest evidence |
| Discovery.OnTrackMeansCovered | service-eval/src/cfwarp_service_eval/reporter.py:293-334 | `onTrack` implies that coverage for every reporting node |
| Discovery.HealthExactly | service-eval/src/cfwarp_service_eval/reporter.py:293-334 | `onTrack`, `atRisk` and `offTrack`, each if and only if the nodes' fields are so |
| Served.StandingExactly | service-eval/src/cfwarp_service_eval/api.py:725-748 | what a cell counts as, from the fields of its newest row: invalid unless every recorded part of subject, lane and scenario is the active deployment's, expired from its end on, and otherwise current with its own verdict |
| Served.MissingExactly | service-eval/src/cfwarp_service_eval/api.py:725-731 | a cell is missing if and only if it has no row |
| Served.ListedExactly | service-eval/src/cfwarp_service_eval/api.py:837-886 | a lane is offered if and only if the newest row of the cell is its own, unexpired and available |
| Served.RepliesExactly | service-eval/src/cfwarp_service_eval/api.py:845-858 | the list names a lane if and only if it is offered and has the capability and origin asked for |
| Served.EntryExactly | service-eval/src/cfwarp_service_eval/api.py:876-885 | an entry carries the lane's public descriptor and the id and times of the newest row of the cell |
| Served.SummaryExactly | service-eval/src/cfwarp_service_eval/api.py:715-755 | each counter of the summary as the number of declared cells with a standing |
| Served.OtherDeploymentIsInvalid | service-eval/src/cfwarp_service_eval/provenance.py:63-90 | evidence upgraded on a descriptor that differs from the active one in any part is never current |
| Served.RetentionDeletesExactly | service-eval/src/cfwarp_service_eval/store.py:1016-1040 | exactly the complete groups finished more than the retention days ago are deleted, with exactly their tasks and observations |
| LostReports.NewRowIsReport | service-eval/src/cfwarp_service_eval/store.py:529-575 | a row that an expiry or a worker failure adds is the report about one running task, which it leaves unknown under its recorded build |
| LostReports.ReportKeepsBuild | service-eval/src/cfwarp_service_eval/store.py:899-904 | for as long as the report is stored, the build it is read back with is the one recorded when it was written |
| LostReports.LostWorkStandsByBuild | service-eval/src/cfwarp_service_eval/api.py:732-741 | over whole runs: the observer's report of an expiry or failure counts as broken evidence if and only if the claim that leased the task recorded another build than the observer's; otherwise the cell is current and undecided for a day |
| LostReports.BrokenCellIsOffTrack | service-eval/src/cfwarp_service_eval/reporter.py:312-317 | while one declared cell stands on broken evidence the verdict is `offTrack` |
| Witnesses.FailedWorkIsBrokenEvidence | service-eval/src/cfwarp_service_eval/store.py:678-709 | such a run from the empty database for every observer and every other build: enqueue, claim, fail |
| Freshness.RetentionKeepsEgresses | service-eval/src/cfwarp_service_eval/store.py:1016-1027 | age-based deletion changes no discovered egress, now or later |
| Freshness.RetentionKeepsCounts | service-eval/src/cfwarp_service_eval/store.py:1016-1027 | nor the expected, fresh, available, unavailable and unknown counts |
| Freshness.TimelinessHolds | service-eval/src/cfwarp_service_eval/store.py:711-723 | in runs with timely workers no observation is newer than its group's finish or lives longer than a day |
| Freshness.RetentionNeverChangesDiscovery | service-eval/src/cfwarp_service_eval/store.py:1016-1027 | so in every reachable state of such a run retention leaves discovery alone |
| Freshness.RowsHaveGroups | service-eval/src/cfwarp_service_eval/store.py:91-97 | in every reachable state the group of every observation exists |
| Freshness.StalePassesStayHidden | service-eval/src/cfwarp_service_eval/store.py:557-573 | after an expiry or worker failure wrote `unknown` for a cell, no later state lists the cell in `egresses` until newer evidence of it is accepted or a completion carries the id of that very row; age-based retention may run in between if no evidence of the cell was accepted that lives longer than a day |
| Freshness.ReusedIdDeletesEvidence | service-eval/src/cfwarp_service_eval/store.py:1046-1058 | to every other cell, an accepted completion under a stored observation id is the deletion of that observation |
| Freshness.StalePassReturnsExactly | service-eval/src/cfwarp_service_eval/store.py:1046-1058 | an event after that, under the same condition on retention, lists the cell again if and only if it is an accepted completion under the id of the displacing row and the newest evidence that remains of the cell is a current pass |
| Witnesses.StalePassRevived | service-eval/src/cfwarp_service_eval/store.py:1046-1058 | for every observer with two lanes, a legal run of ten requests from the empty database, with validating observations only, that hides a stale pass and ends with its lane in `egresses` |
| Witnesses.SuchObserversExist | service-eval/src/cfwarp_service_eval/config.py:107-240 | two direct lanes of the shipped catalogue make such an observer |
| Scheduler.DueScenarios | service-eval/src/cfwarp_service_eval/api.py:251-271 | exactly the declared, enabled scenarios of which no stored row is newer than the tier's cadence, in declared order; those without a row among them |
| Scheduler.DueExactly | service-eval/src/cfwarp_service_eval/api.py:96-102 | due, said of the stored rows and of each tier: half an interval for unknown and degraded lanes, one for preferred and usable ones, four for quarantined ones |
| Scheduler.GroupByScenarios | service-eval/src/cfwarp_service_eval/api.py:307-318 | the dictionary from due lists to lanes, in insertion order |
| Scheduler.BatchCount | service-eval/src/cfwarp_service_eval/api.py:321-322 | a due list takes ceil(lanes / chunk) groups, none empty or above the chunk size |
| Scheduler.SweepPlanIsExact | service-eval/src/cfwarp_service_eval/api.py:307-325 | the planned groups cover exactly the due cells that are not pending, each once, in the sum of ceil(lanes / chunk) groups the store accepts |
| Scheduler.SubmitEffect | service-eval/src/cfwarp_service_eval/store.py:313-353 | a group with room for it adds exactly its cells to the pending ones and one open group; otherwise nothing changes |
| Scheduler.EnqueueDueSweeps | service-eval/src/cfwarp_service_eval/api.py:307-335 | with room for all groups the pending set becomes the old one plus every due cell; otherwise exactly a prefix of the groups exists and the queue is full; no cell becomes pending twice |
| Scheduler.FullPassOnRows | service-eval/src/cfwarp_service_eval/api.py:307-335 | after a pass with room for all its groups a cell is pending if and only if it was before or is declared, enabled and without a row newer than the cadence |
| Scheduler.CreateBatches | service-eval/src/cfwarp_service_eval/api.py:321-332 | the inner loop creates the chunks of one due list up to the first that is refused |
| Scheduler.CreatePlanned | service-eval/src/cfwarp_service_eval/api.py:320-332 | the outer loop creates the planned groups in order up to the first that is refused |
| SweepRate.EvidenceIsNoOlder | service-eval/src/cfwarp_service_eval/store.py:669-675 | the observation of a task is no older than the event that created the task |
| SweepRate.SweepsAreSpaced | service-eval/src/cfwarp_service_eval/api.py:96-102 | two successive enqueues of a cell are at least the lane's cadence apart, hence at least half a sweep interval, however requests interleave between the reads of the pass and its groups |
| SweepRate.PlannedSweepsAreSpaced | service-eval/src/cfwarp_service_eval/api.py:307-335 | so any group a pass creates for a cell of its plan keeps that distance to the cell's previous task |
| SweepRate.InterleavedPassCovers | service-eval/src/cfwarp_service_eval/api.py:307-335 | with other requests between its groups, each group of a pass is refused if and only if the queue is full at that moment and otherwise creates a task for exactly its cells; if all are accepted, exactly the cells that were due and not pending when the pass read the store got a task |
| BrushRunner.RemediationJournal.AssertAvailable | service-eval/src/cfwarp_service_eval/brush.py:168-184 | refuses exactly when the newest row is running or still cooling down |
| BrushRunner.Runner.RollBack | service-eval/src/cfwarp_service_eval/brush.py:273-281 | one retry |
| BrushRunner.Runner.TryAttempt | service-eval/src/cfwarp_service_eval/brush.py:346-416 | the body of the try block follows the specification under every failure |
| BrushRunner.Runner.HandleException | service-eval/src/cfwarp_service_eval/brush.py:417-430 | the handler rolls back once more, notes a failure of that, and ends the run |
| BrushRunner.Runner.RunAttempts | service-eval/src/cfwarp_service_eval/brush.py:337-438 | the retry loop and what follows it |
| BrushRunner.Runner.Run | service-eval/src/cfwarp_service_eval/brush.py:283-438 | a whole run makes of its state what the specification `Brush.Run` says; from a fresh start its calls follow the control protocol, are bounded, and end well |
| BrushTheorems.RunFollowsProtocol | service-eval/src/cfwarp_service_eval/brush.py:283-438 | every run is accepted by the control protocol and makes at most `attempts` prepares, one commit and 2 * attempts + 2 rollback calls |
| BrushTheorems.PreparesOnlyWhenAllRolledBack | service-eval/src/cfwarp_service_eval/brush.py:337-348 | before each prepare every earlier trial has been successfully rolled back |
| BrushTheorems.CommitsOnlyChangedAndAvailable | service-eval/src/cfwarp_service_eval/brush.py:362-395 | a commit goes to the one open trial, whose address changed and whose last gate observation was of the very scenario, fresh, eligible and available when it was judged |
| BrushTheorems.WorkingJournalNeverUndoesCommit | service-eval/src/cfwarp_service_eval/brush.py:394-402 | with a journal that never fails no trial is rolled back after its commit |
| BrushTheorems.CommitIsUndoneExactly | service-eval/src/cfwarp_service_eval/brush.py:394-424 | a commit is rolled back if and only if one of the two journal writes after it raises; when it is the second, the result claims success nevertheless |
| BrushTheorems.CommitsAreUndoneExactly | service-eval/src/cfwarp_service_eval/brush.py:394-424 | in every run a rollback is called after a commit that returned if and only if a later event or save failed and the committed trial has a truthy id |
| BrushTheorems.UndoneSuccess | service-eval/src/cfwarp_service_eval/brush.py:394-430 | a run from the start that returns `succeeded` although its commit was rolled back |
| BrushTheorems.SuccessIsCommit | service-eval/src/cfwarp_service_eval/brush.py:394-402 | with a working journal the outcome is success if and only if a commit returned |
| BrushTheorems.TrialsAreAccountedFor | service-eval/src/cfwarp_service_eval/brush.py:417-430 | a trial that a returning run did not roll back was committed, or is recorded as `rollback: failed` if and only if control gave it a truthy id |
| BrushTheorems.NothingLostExactly | service-eval/src/cfwarp_service_eval/brush.py:417-430 | a returning run rolled back, committed or recorded every trial if and only if it committed or every trial left open has a truthy id |
| BrushTheorems.NamelessTrialIsLost | service-eval/src/cfwarp_service_eval/brush.py:362-364 | every returning run that prepared a trial without an id leaves it open, uncommitted and unrecorded |
| BrushTheorems.FalsyTrialIsLost | service-eval/src/cfwarp_service_eval/brush.py:417-424 | a trial whose id is empty or null is lost when the deadline passes before its address is evaluated: nothing else fails, and no rollback is called at all |
| BrushTheorems.PreparesExactlyWhenNeeded | service-eval/src/cfwarp_service_eval/brush.py:328-348 | after the baseline a trial is prepared if and only if the service is down, or available with a forced change, and the deadline has not passed |
| BrushTheorems.ScanIsFaithful | service-eval/src/cfwarp_service_eval/brush.py:337-438 | the protocol automaton, said of the history: which trials are open, what the last verdict was, and whether a commit was undone |
| BrushRuns.PerformanceNeverDecides | service-eval/src/cfwarp_service_eval/brush.py:319-438 | two runs that differ only in their performance observations make the same control calls and end with the same result and journal |
| BrushRuns.StrategiesEscalate | service-eval/src/cfwarp_service_eval/brush.py:472-475 | in automatic mode the first prepare of a run reconnects and all later ones refresh the identity; otherwise all use the requested strategy |
| BrushRuns.RunIsGuarded | service-eval/src/cfwarp_service_eval/brush.py:168-237 | a run leaves no trace, or found the lane available and leaves its row running or with a cooldown that covers every prepare that returned |
| BrushRuns.CooldownHolds | service-eval/src/cfwarp_service_eval/brush.py:348-355 | across runs and crashes a later run's prepare begins at least 1800 seconds after an earlier run's prepare returned |
| BrushRuns.LaneIsFreeExactly | service-eval/src/cfwarp_service_eval/brush.py:168-184 | the other half: a run gets past `begin` if and only if its insert works, the last run on record returned, and 1800 seconds have passed since that run's prepares that returned |
| BrushRuns.UnusedLaneIsFree | service-eval/src/cfwarp_service_eval/brush.py:176-177 | a lane without rows is free |
| BrushRuns.BrokenRunLocksLane | service-eval/src/cfwarp_service_eval/brush.py:178-180 | a run that began and raised or died leaves its lane locked for good |
| BrushOutcomes.CalmEvaluate | service-eval/src/cfwarp_service_eval/brush.py:362-388 | one gate evaluation of a candidate, and a second one exactly if the first left the service unclear; the last one decides |
| BrushOutcomes.CalmAttempt | service-eval/src/cfwarp_service_eval/brush.py:346-416 | an attempt in which nothing fails commits an available candidate with a changed address and rolls back every other; an unclear one ends the run, the rest go on to the next attempt |
| BrushOutcomes.AcceptsExactly | service-eval/src/cfwarp_service_eval/brush.py:283-296 | which requests are carried out at all; the others raise before anything is read, recorded or changed |
| BrushOutcomes.CalmRunSettles | service-eval/src/cfwarp_service_eval/brush.py:283-438 | a run in which nothing fails returns with the outcome of its baseline or of its last attempt, and fails only when all attempts are used up |
| YouTube.SelectEvidence | service-eval/src/cfwarp_service_eval/youtube_unlock.py:327-442 | the counters and lists of the loop are the counts of the descriptor classes, and the strength depends only on which classes occur |
| YouTube.Classify | service-eval/src/cfwarp_service_eval/youtube_unlock.py:357-393 | which lists and counters one descriptor enters |
| YouTube.CountsAddUp | service-eval/src/cfwarp_service_eval/youtube_unlock.py:352-408 | valid + malformed = total + 1 for a malformed structure |
| YouTube.DirectAndCipherAreDisjoint | service-eval/src/cfwarp_service_eval/youtube_unlock.py:379-393 | direct and cipher-only entries are disjoint parts of the valid ones |
| YouTube.OrderDoesNotMatter | service-eval/src/cfwarp_service_eval/youtube_unlock.py:412-442 | neither strength nor counts depend on the order of the descriptors |
| YouTube.ValidatePlayer | service-eval/src/cfwarp_service_eval/youtube_unlock.py:445-477 | passes exactly the fixed video, playable, titled, with usable format evidence; service failures exactly as classified |
| YouTube.CheckWatchPlayer | service-eval/src/cfwarp_service_eval/youtube_unlock.py:480-593 | passes exactly a watch page that holds such a player; network failure exactly without a reply |
| YouTube.RunProbe | service-eval/src/cfwarp_service_eval/youtube_unlock.py:679-727 | the attempt loop goes on exactly after undecided attempts with a network failure, reports its last attempt, and exits 0 exactly on a pass |
| YouTube.VerdictsAreEarned | service-eval/src/cfwarp_service_eval/youtube_unlock.py:679-727 | a passing verdict implies the fixed video id, OK playability and a valid descriptor or direct manifest; a denial implies that both methods reported it in the last attempt |
| YouTube.PassesExactly | service-eval/src/cfwarp_service_eval/youtube_unlock.py:596-606 | an attempt passes if and only if the page holds the fixed video, playable and titled, with a usable URL or manifest, or with a valid descriptor and a yt-dlp that extracts it |
| YouTube.VerdictExactly | service-eval/src/cfwarp_service_eval/youtube_unlock.py:596-619 | each verdict if and only if the two outcomes and the strength are so |
| YouTube.LayerExactly | service-eval/src/cfwarp_service_eval/youtube_unlock.py:764-771 | each failure layer if and only if the two outcomes and the strength are so |

## Left out

- Embedded worker mode (`next_group`, `start_task`, `finish_task`, `fail_task`, `complete_group`, `supersede_task`): its updates are unguarded; un-leased running rows appear only as what a restart finds.
- Size-based eviction in the stale-pass theorem: `prune` evicts by group finish time, which can remove newer evidence before older; only its termination, bound and order are proved.
- SQLite, JSON text, JSON Schema beyond the facts used by provenance, HTTP routing, bearer tokens, asyncio and signal handling: libraries and plumbing.
- Time stamps are numbers; the store compares ISO 8601 texts, which agrees as long as workers write them in the format the service uses.
- Unicode case mapping and white space: the text operations are those of ASCII.
- The urlsplit test of a proxy and the tests of format and manifest URLs are parameters.
- `sanitize_observation` rewriting artifact paths to base names: artifact paths are taken to be plain names.
- Heartbeats, region statistics, worker registrations, queue statistics and `lane_tier`: descriptive threshold chains; the tier enters the scheduler as a parameter.
- Scheduler.EnqueueDueSweeps: one uninterrupted pass; `SweepRate.InterleavedPassCovers` and the rate bound allow for requests between its groups. The pending cells and the evidence of all lanes are read at one point of a run, except in the rate bound.
- The lane chunk is positive: the code takes it from the environment without checking it.
- One clock reading serves a whole scheduler pass, where the code reads the clock again for each group.
- `begin` of the journal is one step, although the code checks availability before its insert transaction; the events table is represented only by the fact that writing it can fail.
- A prepare, commit or rollback that raises counts as not done, although the call may have taken effect before it failed.
- Brush.NewestRow: of journal rows with equal `started_at` the one inserted last counts as newest, which the query leaves open.
- A null trial id and other falsy ids are one case: present, with a text, and false.
- Texts of errors, elapsed times, hashes of addresses and the tools section of the probe summary.
- Network probes, the browser driver, yt-dlp, subprocess handling and the regular expressions of `classify_failure`: their results are parameters.
- Prometheus text, Linear and Markdown reports, OCI publication checks and command lines.
- BrushRunner.Runner.RollBack: raising is the script's choice; which exception is raised is not distinguished.
- Discovery.OnTrackMeansCovered: speaks of nodes that report a full snapshot; an observer that could not be collected makes the verdict `offTrack` through the failure count.
- Heartbeats, job polling and artifact pruning of the worker loop; only its reconstruction of the leased lane is modelled.
- Evidence.LatestIsNewest: a query may return rows of equal time in any order; the last one wins, as in the dictionary the code builds.
- SweepRate.SweepsAreSpaced: assumes that the first task was neither superseded nor deleted by retention, that its observation was not replaced under a reused id, and that its worker observed no earlier than the task was enqueued.
- LostReports.LostWorkStandsByBuild: assumes that the observer has the same lanes when it writes a report and when it reads it, and that a canonical scenario id is long enough for the schema and no short id, as in the shipped catalogue.
- Freshness.TimelinessHolds: assumes workers whose clock is not ahead and whose evidence lives at most a day.
