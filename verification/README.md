# Verified model of the mote kernel

This project models, in Dafny, the parts of the mote kernel that decide what survives a failure: the
commit, recovery and handoff of a graph family, the reducer underneath it, and the self-contained
protocols around it (failover, observation windows, the wait and Session codecs, identities, the Act
tool run, resource queues). It proves what these parts promise, or exactly when they keep it, for every
input, every sequence of steps and every point of failure or cancellation.

`dafny verify dfyconfig.toml` checks the whole project.

## How the modules fit together

- `Sorted`, `Identity`: ordered tuples, binary search, decimal numbers, `len:value` fields and the
  identities built from them.
- `FrameIndex`, `ScopedFrames`: scoped coordinates, one canonical segment as a map, the four-segment
  index, its partition by owner and its merge.
- `GraphState`, `GraphRuns`: the graph-run state, its durable invariants and its reducer; what each command
  means, and the settlements of one claim.
- `Lineage`, `Resumption`, `ResumeAcceptance`, `RepeatedInterrupt`: the scoped lineage, the two planning
  loops, when a resume request is accepted, and a run whose second answer is not.
- `FamilyPlan`, `FamilySteps`, `FamilyAgreement`, `FamilyHandoff`, `FamilyReplan`, `FamilyEvidence`,
  `FamilyResubmission`, `FamilyDriver`: the admission walk over a fallible commit port and a cancellable caller.
  `FamilyDriver.Admission` is the mutable walk; everything it promises is a statement about the first k
  commits of one planned list. `FamilyDriver.ContinueRoot` joins planning and admission.
- `GraphCommit`, `FamilyRuns`, `Recovery`, `Durability`, `Restoration`: transitions and the families they
  reach, evidence commitments, durable requests, the store, and the cold start that reads it back.
- `ChildReads`, `SessionOwner`, `Writer`: the two-step child read, the shared Session under concurrent
  and cancellable commits, and the writer's attempt loop against an arbitrary store.
- `Failover`, `Observe`, `Utf8`, `WaitCodec`, `SessionCodec`, `Act`, `Resources`: the remaining
  protocols, each on its own.

## What was found

Some promises do not hold for every input. In each case the model keeps the code as it is, gives an input
that breaks the promise, and states exactly when it holds.

- Partial commits. A caller cancelled while a commit is under way sees the cancellation only after the
  commit is installed, but the walk then does not count that commit as a confirmed prefix. Cancelled during
  its first commit, the walk has confirmed one commit and hands back no continuation
  (`FamilyDriver.FirstCommitCancelled`); a confirmed prefix comes back exactly in the other cases
  (`FamilyDriver.ConfirmedPrefixComesBackIff`). Cancelled later, the continuation is exact but the reported
  scope is that of a confirmed commit (`FamilyDriver.ContinuationComesBackIff`).
- Resumes. A continuation keeps every answer under its activation. A node that is answered and interrupts
  again in the same superstep cannot be answered again on that continuation: `RepeatedInterrupt` gives the
  run, from the start of the graph to the refusal (`RepeatedInterrupt.RepeatedInterruptIsRefused`).
  `ResumeAcceptance.RequestAcceptedIff` says exactly which requests are accepted, once their inputs have
  been admitted by the codec and the frame declarations.
- Resources. Releasing a participant can make its successor queue up behind a participant that
  acquired later; replaying the acquisitions then gives another snapshot, so the reducer rejects its
  own result and the node cannot settle. Validation accepts exactly the snapshots whose queues are in
  acquisition order (`Resources.ValidatesIffOrderly`), `Resources.ReleaseCanBeRejected` is the failing
  run, and a release is accepted exactly when, following its promotions from the snapshot before it, nobody
  it lets through has to queue up again behind a later participant (`Resources.ReleaseAcceptedIff`).
- Ledger and index. Everything the driver transitions keeps ledger and index in agreement, because a
  settlement is projected from its result (`GraphCommit.LedgerIndexAgreement`). `prepare_transition` alone
  does not ensure it: a direct caller could settle a node successfully with an unsuccessful result
  (`GraphCommit.UnpublishedSettlement`). Agreement is kept exactly when result and outcome match
  (`GraphCommit.AgreementKeptIffMatched`), and the durable path rejects every mismatch
  (`Durability.DurableRunsAreInStep`).
- Session recovery. Recovery compares decoded values with the caller's own equality, so it rejects a
  Session whose equality is not reflexive although decoding accepted it. It accepts exactly the others
  (`SessionCodec.RecoveryAdmitsDecoded`), and everything the kernel itself wrote under a symmetric and
  transitive equality (`SessionCodec.WrittenSessionRecovers`).
- Act. The verdict passed to `resume_authorization` and the invocation resolved before the interrupt are
  not compared with the authorization the port builds; what the port builds is what executes
  (`Act.PortDecidesWhatExecutes`). Safety is therefore stated about the resumed authorization. An execution
  whose activation is lost before it is settled runs again (`Act.LostExecutionRepeats`); in a run that
  is done the port was called once more than executions were lost (`Act.ExecutionsAreCounted`).
- Waits. Encoding a wait with a number from the 4300th power of ten on leaks the runtime's number-size error
  instead of the contract error (`WaitCodec.HugeNumberEscapes` is such a wait, `WaitCodec.EncodingOutcome`
  says exactly when); decoding never does (`WaitCodec.DecodingIsTotal`).

## Modelling assumptions

- Text is a sequence of code points and bytes are integers below 256, so one field codec serves both.
- The settlement ledger is the map from activation to record; the code keeps it as a canonical tuple with
  one record per activation.
- Frame values, codecs, encoders, the metadata printer and the hash are parameters. Only
  `Restoration.OnlyWrittenRecordsRestore` assumes the hash free of collisions and the printer injective
  and free of NUL.
- The reducer accepts every command the kernel accepts and possibly more: routing causes, Join progress,
  the Config cursor and resource snapshots are not part of `GraphState.State`. Statements over all runs
  cover the kernel's runs.
- `FamilyRuns` assumes of the driver only that a start or an advance uses nodes of the compiled graph, that a
  child starts under a pending node of a running parent, that a nested node settles after its child has
  ended, and that a run aborts after its children.
- The commit port of an admission is modelled by its answer to every commit: confirmed, confirmed while the
  caller was cancelled, or not confirmed. The store is modelled by every behaviour its contract allows,
  including writes that stay in flight.
- Concurrency is interleaving of steps around one lock; cancellation is an event that may arrive at any
  step. One owner has at most one transition under way.
- One failover plan per revision; delays are real numbers.
- Some facts are guarded by a `Seal` (declared in `FrameIndex`): they mean what they say,
  and proofs that only pass them on do not unfold them.

## Model

| member | source | states |
|---|---|---|
| `Identity.ChildRunIdInjective` | mote-kernel/src/mote_kernel/state/graph_state/identity.py:119-135 | a child run id determines the parent run, superstep and node it was built from |
| `Identity.InterruptIdInjective` | mote-kernel/src/mote_kernel/state/graph_state/identity.py:101-116 | an interrupt id determines run, superstep, node and generation |
| `Identity.SettlementEventIdInjective` | mote-kernel/src/mote_kernel/events/identity.py:11-31 | two settlement events share an idempotency key only when all six coordinates agree, whatever the scope length and field contents |
| `Identity.HookSlotIdentified` | mote-kernel/src/mote_kernel/hooks/identity.py:65-76 | the pair of Hook definition id and version identifies the slot |
| `Identity.HookAndFailoverNeverCollide` | mote-kernel/src/mote_kernel/failover/assembly.py:342-344 | no Hook definition id equals a failover definition id |
| `Identity.FailoverDefinitionIdInjective` | mote-kernel/src/mote_kernel/failover/assembly.py:342-344 | a failover definition id determines its port |
| `Identity.CommitmentPreimageInjective` | mote-kernel/src/mote_kernel/execution/persistence.py:148-156 | the NUL-framed pre-image of an evidence commitment can be read in one way only, for every injective metadata printer that escapes NUL |
| `FrameIndex.InsertSpec` | mote-kernel/src/mote_kernel/execution/run_context.py:204-219 | inserting a record fails exactly on a repeated coordinate; otherwise the segment stays strictly ordered and gains exactly that record |
| `FrameIndex.InsertRefinesMap` | mote-kernel/src/mote_kernel/execution/run_context.py:204-352 | a segment is a map: insertion fails exactly when the key is bound, and otherwise binds that key and no other |
| `FrameIndex.InsertAllSpec` | mote-kernel/src/mote_kernel/execution/run_context.py:298-352 | adding a list succeeds exactly when its coordinates are new and distinct, and yields the ordered segment of old and new records |
| `FrameIndex.InsertionOrderIsIrrelevant` | mote-kernel/src/mote_kernel/execution/run_context.py:204-219 | the result of adding records does not depend on their order of arrival |
| `FrameIndex.CanonicalUnique` | mote-kernel/src/mote_kernel/execution/run_context.py:204-219 | an ordered segment is determined by its records |
| `FrameIndex.ChildScopeRunInjective` | mote-kernel/src/mote_kernel/execution/identity.py:55-70 | a child coordinate determines the parent activation that owns it |
| `GraphState.ValidationRejectsOnlyConflictingCompletion` | mote-kernel/src/mote_kernel/state/graph_state/reducer.py:35-71 | over the modelled fields, the final validation of the reducer rejects a transition of a valid state in exactly one case: completing a durable run under a route some terminal node did not select |
| `GraphState.LedgerIsAppendOnly` | mote-kernel/src/mote_kernel/state/graph_state/execution_transitions.py:407-475 | a step adds one ledger record exactly when it settles a node successfully, for an activation not recorded before, born in this revision under this token; otherwise the ledger is unchanged |
| `GraphRuns.StartMeaning` | mote-kernel/src/mote_kernel/state/graph_state/execution_transitions.py:62-105 | a start is accepted exactly for non-empty nodes in order, none twice, and a nested run exactly under the id derived from its parent activation; it makes exactly these nodes pending, in superstep and revision 0, without lease or ledger |
| `GraphRuns.ClaimMeaning` | mote-kernel/src/mote_kernel/state/graph_state/execution_transitions.py:334-348 | a claim is accepted exactly by a running state without a lease in which some node is pending; it raises the generation by one, installs the token of that generation and attempt, and changes nothing else |
| `GraphRuns.SettlementAcceptedIff` | mote-kernel/src/mote_kernel/state/graph_state/execution_transitions.py:407-456 | a settlement is accepted exactly for a pending node under the token of the lease; an interrupt must also name this run, superstep, node and generation in a run with a resume codec, and only a success may carry evidence |
| `GraphRuns.SettlementMeaning` | mote-kernel/src/mote_kernel/state/graph_state/execution_transitions.py:466-495 | a settlement turns its own node into what was reported and leaves every other node as it was; the lease stays exactly while some node is pending, and the run fails exactly when none is pending and one failed |
| `GraphRuns.ClaimSettlesInAnyOrder` | mote-kernel/src/mote_kernel/state/graph_state/execution_transitions.py:407-495 | from every claimed valid state, outcomes for distinct pending nodes are all accepted under the one token, in every order; each node ends as its outcome says and the others as they were, and the lease ends exactly with the last pending node |
| `GraphRuns.AdvanceMeaning` | mote-kernel/src/mote_kernel/state/graph_state/execution_transitions.py:367-386 | an advance is accepted exactly from a settled frontier of successes without a lease; the next superstep has exactly the given nodes, in order, all pending |
| `GraphRuns.CompleteMeaning` | mote-kernel/src/mote_kernel/state/graph_state/execution_transitions.py:389-404 | completion is accepted exactly from a settled frontier of successes, of a durable run all under the given route |
| `GraphRuns.SuperstepCompletes` | mote-kernel/src/mote_kernel/state/graph_state/execution_transitions.py:358-495 | once a claim has settled every pending node successfully and no other node failed or waits, the run can advance to any canonical list of nodes |
| `GraphState.StepKeepsIdentity` | mote-kernel/src/mote_kernel/state/graph_state/reducer.py:35-71 | every step keeps run, parent and input evidence and moves the revision by one |
| `GraphState.FenceAlwaysAdmitted` | mote-kernel/src/mote_kernel/state/graph_state/execution_transitions.py:351-355 | only a running state holds a lease; its own fence is always admitted, clears the lease, moves the revision and changes nothing else |
| `GraphState.ResumeFacts` | mote-kernel/src/mote_kernel/state/graph_state/recovery_transitions.py:22-58 | an admitted resume needs a running state without a lease and changes only the frontier; pending nodes stay pending |
| `Lineage.LineageIsCanonical` | mote-kernel/src/mote_kernel/execution/invocation.py:144-174 | every admitted lineage is strictly ordered by coordinate and the root is element 0 |
| `Lineage.PositionSpec` | mote-kernel/src/mote_kernel/execution/invocation.py:90-98 | binary search finds a binding at its only position |
| `Lineage.AbsentSpec` | mote-kernel/src/mote_kernel/execution/invocation.py:90-98 | binary search finds nothing exactly when the coordinate is not bound |
| `Lineage.ReplaceSpec` | mote-kernel/src/mote_kernel/execution/invocation.py:99-104 | replacing changes the binding at its own key and no other |
| `Lineage.PlanFences` | mote-kernel/src/mote_kernel/execution/invocation.py:177-205 | the loop accepts exactly the lineages whose every run has a graph, matches it, and, when nested, hangs under a bound parent at its own child coordinate, in the current superstep of a running parent if it is itself running; it fences exactly the leased scopes, in order, and leaves the others as they were |
| `Lineage.FenceAdmissibleIff` | mote-kernel/src/mote_kernel/execution/invocation.py:177-205 | one binding passes the checks of the loop exactly when it matches its graph and fits under a bound parent, whatever the binary search does |
| `Lineage.FinishedChildNeverBlocks` | mote-kernel/src/mote_kernel/execution/invocation.py:189-195 | a child that is not running passes the checks whatever its parent's status, as long as its activation is not in the parent's future |
| `FamilyRuns.ReachedIsPlannable` | mote-kernel/src/mote_kernel/execution/invocation.py:177-205 | every family reached from nothing by confirmed moves of the driver over its own graph, at any point and with any children started, running or ended, is accepted by the planning loop |
| `Lineage.FenceListMembers` | mote-kernel/src/mote_kernel/execution/invocation.py:177-205 | the planned fences are exactly the fences of the leased bindings |
| `Lineage.FencedIsCanonical` | mote-kernel/src/mote_kernel/execution/invocation.py:177-205 | fencing keeps a lineage canonical, so resumes can be planned on it |
| `Resumption.ResolvedScope` | mote-kernel/src/mote_kernel/execution/invocation.py:208-226 | a resolved scope run is bound and has exactly the requested scope |
| `Resumption.PlanGroupShape` | mote-kernel/src/mote_kernel/execution/invocation.py:240-288 | planning one scope replaces one binding by its reducer successor, adds that scope's inputs and appends one plan |
| `ResumeAcceptance.ResumeAcceptedIff` | mote-kernel/src/mote_kernel/state/graph_state/recovery_transitions.py:22-58 | the reducer accepts a resume of a valid state exactly when the run is running without a lease and the actions name distinct nodes in order, each with the interrupt its node waits on |
| `ResumeAcceptance.RequestAcceptedIff` | mote-kernel/src/mote_kernel/execution/engine/resume_admission.py:61-125 | a canonical request whose inputs were admitted is accepted exactly when every scope is reached through nested nodes that are pending or answered by the request, its snapshot matches its graph, its actions answer the current interrupts of nodes without predecessor-bound input, and no answer is recorded at those activations already; all said of the lineage and frames given |
| `ResumeAcceptance.PlanResumes` | mote-kernel/src/mote_kernel/execution/invocation.py:229-289 | for requests whose inputs were admitted, the loop accepts exactly the canonical requests each of whose scopes fits the given lineage and frames; then every answered node is pending with its own payload, its own value is recorded at its activation, everything else is as given, and the plans are reducer steps of the given lineage, one per requested scope |
| `ResumeAcceptance.AcceptedIsAnswered` | mote-kernel/src/mote_kernel/execution/engine/resume_admission.py:61-125 | whatever is accepted answers, at every requested scope and for every action, the named node with the payload of that action and records the value of that action at its current activation, and nothing else is recorded or changed |
| `ResumeAcceptance.SecondAnswerIsRejected` | mote-kernel/src/mote_kernel/execution/run_context.py:326-338 | a request with an answer already recorded at its activation is rejected |
| `RepeatedInterrupt.NodeInterrupts` | mote-kernel/src/mote_kernel/state/graph_state/execution_transitions.py:351-475 | a graph of one node starts, its node is claimed and interrupts |
| `RepeatedInterrupt.InterruptRepeats` | mote-kernel/src/mote_kernel/state/graph_state/execution_transitions.py:351-475 | pending again with its answer, the node is claimed and interrupts again in the same superstep |
| `RepeatedInterrupt.RepeatedInterruptIsRefused` | mote-kernel/src/mote_kernel/execution/invocation.py:283-284 | in this run the first answer is accepted and makes the node pending again; the second answer names the current interrupt, would be accepted if the first were not recorded, and is rejected |
| `ScopedFrames.MergeBySegment` | mote-kernel/src/mote_kernel/execution/family_driver.py:380-393 | merging whole indexes is merging their four segments independently, failing exactly when one segment fails |
| `ScopedFrames.PartitionMerges` | mote-kernel/src/mote_kernel/execution/family_driver.py:396-420 | splitting a segment by owner and merging the parts, children first and the root in front, gives back the same ordered segment |
| `ScopedFrames.OwnerMeaning` | mote-kernel/src/mote_kernel/execution/family_driver.py:396-420 | a coordinate belongs to its own run, a child boundary to the run of the activation that owns that child |
| `ScopedFrames.OwnerGetsItsOwn` | mote-kernel/src/mote_kernel/execution/family_driver.py:396-420 | the part of an owner holds exactly the records that belong to it, in all four segments |
| `FamilyPlan.VisitDistinct` | mote-kernel/src/mote_kernel/execution/family_driver.py:1216-1271 | the admission walk admits no scope twice |
| `FamilyPlan.VisitReachesRunning` | mote-kernel/src/mote_kernel/execution/family_driver.py:1216-1271 | the walk reaches every running scope, because a running child's parent is itself running and current |
| `FamilySteps.ScopesAreIndependent` | mote-kernel/src/mote_kernel/execution/family_driver.py:559-603 | commits of different scopes do not interfere: if every scope can execute its own commits the whole sequence executes, and each scope ends where its own commits lead |
| `FamilySteps.RunLocalFrames` | mote-kernel/src/mote_kernel/execution/family_driver.py:610-617 | an owner's frames change in one way only: they gain the inputs of its own confirmed resumes |
| `FamilyAgreement.WalkExecutesPlanExactlyOnce` | mote-kernel/src/mote_kernel/execution/family_driver.py:1159-1286 | at every scope the commits of the walk are exactly the planned fence followed by the planned resume |
| `FamilyAgreement.PlannedOccursOnce` | mote-kernel/src/mote_kernel/execution/family_driver.py:1159-1286 | every planned commit occurs exactly once in the walk and nothing else occurs |
| `FamilyAgreement.EveryPrefixExecutes` | mote-kernel/src/mote_kernel/execution/commit.py:203-229 | every prefix of the walk executes: no reducer rejection, no input collision, and the admitted-successor check never fires |
| `FamilyAgreement.WalkReachesPlannedLineage` | mote-kernel/src/mote_kernel/execution/invocation.py:177-289 | the whole walk reaches exactly the planned lineage |
| `FamilyHandoff.WalkReachesPlannedFrames` | mote-kernel/src/mote_kernel/execution/invocation.py:229-289 | after the whole walk the merged frames are exactly the planned frames |
| `FamilyHandoff.PrefixHandoff` | mote-kernel/src/mote_kernel/execution/family_driver.py:1287-1313 | after any confirmed prefix the merged frames are the original frames and exactly the inputs of the confirmed resumes |
| `FamilyHandoff.PartitionMergeRoundTrip` | mote-kernel/src/mote_kernel/execution/family_driver.py:380-450 | splitting a family's index by owner and handing it off gives back the same index: nothing lost, duplicated or reordered |
| `FamilyReplan.ReplanIsUnconfirmed` | mote-kernel/src/mote_kernel/execution/invocation.py:177-205 | after any confirmed prefix the lineage is still plannable, and planning it again plans exactly the unconfirmed fences, in order |
| `FamilyReplan.ContinuationIsAdmitted` | mote-kernel/src/mote_kernel/execution/family_driver.py:1287-1313 | a partial continuation is again an admitted family over the same scopes, with the unconfirmed fences to plan |
| `FamilyReplan.LocalProgress` | mote-kernel/src/mote_kernel/execution/family_driver.py:605-617 | fences and resumes keep run, parent, status, superstep and pending nodes, and leave no lease after the first of them |
| `FamilyResubmission.ConfirmedAreFirst` | mote-kernel/src/mote_kernel/execution/family_driver.py:1216-1286 | after any confirmed prefix of the walk the confirmed resumes are those of the first scopes of the request |
| `FamilyResubmission.ResubmissionReachesPlan` | mote-kernel/src/mote_kernel/execution/invocation.py:229-289 | submitting exactly the unconfirmed resumes again on a partial continuation is accepted and plans exactly the lineage and frames planned at first |
| `FamilyEvidence.SortedKeys` | mote-kernel/src/mote_kernel/execution/family_driver.py:443-448 | sorting the evidence keys yields the ordered list of exactly these keys |
| `FamilyEvidence.ReadEntries` | mote-kernel/src/mote_kernel/execution/family_driver.py:423-450 | reading the evidence in coordinate order gives, for every child coordinate, the state and frames the commits so far left there |
| `FamilyEvidence.FrozenRead` | mote-kernel/src/mote_kernel/execution/family_driver.py:936-945 | what the reader assembles at any point of the walk is the continuation of the confirmed commits |
| `FamilyDriver.Admission.constructor` | mote-kernel/src/mote_kernel/execution/family_driver.py:1072-1140 | a new admission holds the suspended states and the frames of each owner, with nothing committed |
| `FamilyDriver.Admission.Transition` | mote-kernel/src/mote_kernel/execution/family_driver.py:559-603 | one commit: confirmed state and frames are installed together and a child hands off its evidence, also when the caller was cancelled meanwhile; an unconfirmed commit changes nothing; no planned commit is ever rejected |
| `FamilyDriver.Admission.Attempt` | mote-kernel/src/mote_kernel/execution/family_driver.py:1159-1177 | only a commit that returns normally sets the prefix flag; one that fails, and one confirmed under a cancelled caller, names its scope as failed and stops the walk |
| `FamilyDriver.Admission.ApplyAdmission` | mote-kernel/src/mote_kernel/execution/family_driver.py:1159-1177 | the fence of a scope is committed before its resume |
| `FamilyDriver.Admission.ConstructChild` | mote-kernel/src/mote_kernel/execution/family_driver.py:1179-1214 | a child's commits come before those of its own children |
| `FamilyDriver.Admission.AdmitChildren` | mote-kernel/src/mote_kernel/execution/family_driver.py:1216-1271 | the running children of an owner are admitted in coordinate order; the commits made are those of the planned list up to the first one that does not return normally |
| `FamilyDriver.Admission.FreezeRootEvidence` | mote-kernel/src/mote_kernel/execution/family_driver.py:936-945 | freezing yields the continuation of the confirmed commits |
| `FamilyDriver.Admission.AdmitContinuedRoot` | mote-kernel/src/mote_kernel/execution/family_driver.py:1072-1326 | the answers of the port decide the ending: all commits confirmed and the owners handed over; or, when the first commit does not return normally, the failure alone; or the exact continuation of the confirmed commits, with the scope of the commit that did not return normally |
| `FamilyDriver.ContinuationComesBackIff` | mote-kernel/src/mote_kernel/execution/family_driver.py:1287-1313 | a continuation comes back exactly when at least one commit returned normally and not all did; the scope it names is that of the first unconfirmed commit exactly when the stop was a failure, and of the last confirmed one after a cancellation |
| `FamilyDriver.ConfirmedPrefixComesBackIff` | mote-kernel/src/mote_kernel/execution/family_driver.py:1287-1293 | a confirmed prefix comes back as a continuation exactly when the caller is not cancelled during the first commit |
| `FamilyDriver.FirstCommitCancelled` | mote-kernel/src/mote_kernel/execution/family_driver.py:597-602 | cancelled during its first commit, the walk has confirmed one commit and only the cancellation surfaces |
| `FamilyDriver.FrozenWholeIsPlanned` | mote-kernel/src/mote_kernel/execution/family_driver.py:936-945 | once every planned commit is confirmed, the owners hold exactly the planned lineage and frames |
| `FamilyDriver.ContinueRoot` | mote-kernel/src/mote_kernel/execution/invocation.py:177-289 | planning and admission together: nothing is attempted exactly when the lineage is not plannable or the request does not fit the fenced lineage; otherwise the port decides, and the outcome is the planned lineage and frames, with every answered node pending under its payload and every answered value recorded at its activation, the failure alone, or the exact continuation |
| `GraphCommit.PreparedIsAdmitted` | mote-kernel/src/mote_kernel/execution/commit.py:136-192 | a prepared transition fails its own checks in exactly one case: a successful result under an unsuccessful outcome |
| `GraphCommit.PreparedExactly` | mote-kernel/src/mote_kernel/execution/commit.py:136-281 | a transition is prepared exactly for an accepted command with what belongs to it: an input with a start, a result with a settlement, for the activation it settles; it writes that input, or that output under its revision and token, and nothing else |
| `GraphCommit.StagingNeverCollides` | mote-kernel/src/mote_kernel/execution/commit.py:361-379 | staging the writes of a prepared transition never meets a recorded coordinate |
| `GraphCommit.AgreementKeptIffMatched` | mote-kernel/src/mote_kernel/execution/commit.py:160-192 | a confirmed transition keeps ledger and index in agreement exactly when its result reports success if and only if its outcome does |
| `GraphCommit.LedgerIndexAgreement` | mote-kernel/src/mote_kernel/execution/engine/settlement.py:98-135 | over every sequence of confirmed transitions of the driver, whose settlements are projected from their results, the publications are exactly the settlement ledgers, with the same revision and token, every bound run has its one graph input, and the validation of the index accepts it |
| `GraphCommit.ReportIsSettled` | mote-kernel/src/mote_kernel/execution/engine/settlement.py:98-135 | a task result is projected exactly for a pending node of the current superstep under a lease, and an interrupt only with a resume codec; settling it turns that node, and no other, into what was reported, with its route, failure or payload |
| `GraphCommit.ValidationIsExact` | mote-kernel/src/mote_kernel/execution/invocation.py:348-531 | for graph inputs and publications, frame-index and completeness validation accept exactly the indexes that agree with their ledgers |
| `GraphCommit.UnpublishedSettlement` | mote-kernel/src/mote_kernel/execution/commit.py:160-192 | a direct caller of transition preparation, bypassing the projection of results, can settle a node successfully with an unsuccessful result, and the ledger then names a publication no frame holds |
| `Recovery.AcceptedFrameDecodes` | mote-kernel/src/mote_kernel/execution/persistence.py:528-549 | every frame the codec was accepted for decodes again, to itself exactly when the codec round-trips it, which a codec with distinct encodings always does |
| `Recovery.DecodedFrameEncodes` | mote-kernel/src/mote_kernel/execution/persistence.py:841-853 | a stored frame that decodes is under this codec and version, and encodes again to exactly itself as long as its value has its own names and types |
| `Durability.BoundIsPrepared` | mote-kernel/src/mote_kernel/execution/commit.py:284-321 | binding evidence changes nothing a transition writes and keeps run and revision |
| `Durability.BindingIsExact` | mote-kernel/src/mote_kernel/execution/commit.py:284-321 | binding is refused for nothing but the digests: a missing one, one that does not belong to the command, or one that would replace another; accepted, it adds that digest to the candidate and changes nothing else |
| `Durability.DurableCommitKeepsStep` | mote-kernel/src/mote_kernel/execution/persistence.py:591-644 | every durable commit keeps memory and store in step: same head states, stored values that are position by position the encodings of the frames, bound to the evidence the states carry |
| `Durability.DurableRunsAreInStep` | mote-kernel/src/mote_kernel/execution/persistence.py:591-644 | over every sequence of durable commits memory and store are in step |
| `Durability.DurablePathNeverRejects` | mote-kernel/src/mote_kernel/execution/persistence.py:433-500 | a prepared transition with a matching, encodable result is always confirmed: neither evidence binding, nor the request's own checks, nor the confirmation check reject it |
| `Restoration.RestoreCheckpoint` | mote-kernel/src/mote_kernel/execution/persistence.py:856-935 | restoring accepts exactly the checkpoints whose records are ordered, self-consistent, bound to their states and decodable, and rebuilds exactly the decoded records |
| `Restoration.RestoredFollowStates` | mote-kernel/src/mote_kernel/execution/persistence.py:882-935 | whatever hash is used, every restored publication names a settlement its run records, with the recorded revision and token, and every restored input a bound run |
| `Restoration.AdmittedRequestKeepsStore` | mote-kernel/src/mote_kernel/execution/persistence.py:433-500 | the checks a commit request makes of itself are enough, whoever built it: applied under the compare-and-set to a restorable store it leaves one, in which its run has moved by one revision, or started with its graph input, and no other run has moved |
| `Restoration.CheckEvidence` | mote-kernel/src/mote_kernel/execution/persistence.py:882-909 | the evidence loop accepts exactly the records bound to the evidence of their states |
| `Restoration.ColdRecoveryRefinesLive` | mote-kernel/src/mote_kernel/execution/persistence.py:883-935 | after every sequence of durable commits the store is restorable, and the restored graph inputs and publications equal those in memory exactly when the codec round-trips the frames |
| `Restoration.RestoredContextValidates` | mote-kernel/src/mote_kernel/execution/persistence.py:936 | the restored index passes context validation |
| `Restoration.OnlyWrittenRecordsRestore` | mote-kernel/src/mote_kernel/execution/persistence.py:263-375 | with a collision-free hash any complete list of records the evidence checks accept is the list that was stored |
| `ChildReads.ChildRunReads` | mote-kernel/src/mote_kernel/execution/invocation.py:482-514 | the loop fails exactly when some run has no graph of its own, a bound child belongs to no settled or current nested activation, something is proven uncreated that is bound or not pending, or, in complete mode, a required child is neither bound nor proven uncreated; otherwise it returns these unproven children in order |
| `ChildReads.RequiredIff` | mote-kernel/src/mote_kernel/execution/invocation.py:482-500 | a child is required exactly when it belongs to a nested node whose activation is in a bound run's ledger or on its frontier, and may be uncreated exactly when that node is pending |
| `ChildReads.SettledNeedsSnapshot` | mote-kernel/src/mote_kernel/execution/invocation.py:493-514 | evidence without the child of a settled nested activation is always refused, and with it that child is required and never missing |
| `ChildReads.RereadCompletesIff` | mote-kernel/src/mote_kernel/execution/persistence.py:748-779 | after an admitted reread the complete read succeeds exactly when the reread proved the missing coordinates and nothing beyond the uncreated ones |
| `ChildReads.TwoStepReadCompletes` | mote-kernel/src/mote_kernel/agent.py:408-418 | rereading exactly the missing coordinates leaves nothing missing, and the required coordinates split disjointly into bound and proven-uncreated ones |
| `SessionOwner.FamilySessionOwner.Confirm` | mote-kernel/src/mote_kernel/execution/family_driver.py:126-145 | a confirmed commit joins the history with its explicit successor or else exactly the Session of the commit before it, and the live Session stays that of the last one; an unconfirmed or mismatched one leaves no trace |
| `SessionOwner.WaitForOwnerTask` | mote-kernel/src/mote_kernel/execution/cancellation.py:9-24 | caller cancellations are absorbed until the commit settles; a result is reported with the first of them, a failure without |
| `SessionOwner.WaitInRun` | mote-kernel/src/mote_kernel/execution/cancellation.py:9-24 | in every run, waiting for a commit that ended reports success exactly when it was confirmed and a cancellation exactly when its caller was cancelled; the installation then surfaces exactly that |
| `SessionOwner.SessionLinearization` | mote-kernel/src/mote_kernel/execution/family_driver.py:113-145 | in every interleaving, also of owners that go on after a failure or cancellation, the n-th confirmed commit is the one asked for and prepared by the owner of the n-th confirmation, and carries its explicit successor or else exactly the Session of the one before; at most one commit is under way; and whenever a caller sees its transition end, what is installed is its last confirmed commit |
| `SessionOwner.RunIsAsked` | mote-kernel/src/mote_kernel/execution/family_driver.py:113-145 | in every interleaving the n-th confirmed commit belongs to the n-th confirmation, with the successor its owner asked for last and the value prepared for it last |
| `SessionOwner.CommitCompletes` | mote-kernel/src/mote_kernel/execution/family_driver.py:559-603 | with the lock free an idle owner can ask, commit and install; the Session is its successor or stays, and what it has installed is what it prepared |
| `SessionOwner.NobodyIsStuck` | mote-kernel/src/mote_kernel/execution/family_driver.py:559-603 | in every reachable world an owner with a transition under way can move on by itself or once the one that holds the lock has moved; no cancellation is needed |
| `SessionOwner.SerialHistory` | mote-kernel/src/mote_kernel/execution/family_driver.py:126-145 | every interleaving is a serial history of the one owner object: one confirm per ended commit makes the same confirmed commits and leaves the same Session |
| `SessionOwner.FailedConfirmChangesNothing` | mote-kernel/src/mote_kernel/execution/family_driver.py:559-603 | whatever other owners do meanwhile, an owner whose commits are not confirmed changes nothing: Session, history and every other owner are as if it had never asked, and what it has installed is what it had |
| `SessionOwner.CancelledCommitIsInstalledFirst` | mote-kernel/src/mote_kernel/execution/family_driver.py:586-603 | for every run after a commit is under way and whatever other owners do: a cancelled caller never returns as if nothing had happened, and when its cancellation has surfaced a confirmed commit is in the history and installed |
| `Writer.Write` | mote-kernel/src/mote_kernel/agent.py:204-237 | against any store honouring the port contract the request is applied at most once; a normal return means applied, exhausted attempts mean not applied; a further commit call only follows a proven NotApplied, a reconcile only an unknown commit; and commit calls stay within the budget |
| `Writer.Attempt` | mote-kernel/src/mote_kernel/agent.py:210-233 | one attempt is a commit, followed by a reconcile exactly when its outcome was unknown |
| `Writer.AppliedStaysContiguous` | mote-kernel/src/mote_kernel/execution/persistence.py:452-457 | applying an admissible request keeps every scoped run's durable revisions 0, 1, 2 and so on |
| `Writer.AppliedAtMostOnce` | mote-kernel/src/mote_kernel/persistence.py:166-198 | in such a log no revision of a run is committed twice |
| `Writer.Store.Commit` | mote-kernel/src/mote_kernel/persistence.py:166-198 | the most general commit the port contract allows: it applies at most the given request and answers Applied or NotApplied only when proven |
| `Writer.Store.Reconcile` | mote-kernel/src/mote_kernel/persistence.py:166-198 | the most general reconcile the port contract allows: a write in flight may land, be dropped or stay, and only a proven outcome is answered |
| `Failover.StrategyUseCounts` | mote-kernel/src/mote_kernel/failover/plan.py:336-354 | recording a use raises the count of that strategy by one and no other, and never repeats a strategy |
| `Failover.CountersAreConserved` | mote-kernel/src/mote_kernel/failover/assembly.py:270-339 | over every sequence of outcomes the attempt ordinal is the sum of the strategy uses, each cursor is the count of its own strategy, and no strategy exceeds its limit |
| `Failover.WireCallsBounded` | mote-kernel/src/mote_kernel/failover/policy.py:129-181 | no sequence of outcomes makes more wire calls than the smaller of the wire limit and one plus the sum of the five preparation limits |
| `Failover.WireBoundIsReached` | mote-kernel/src/mote_kernel/failover/policy.py:129-181 | the bound is exact: some outcomes reach every number of calls within it |
| `Failover.Operate` | mote-kernel/src/mote_kernel/failover/assembly.py:205-339 | the cycle ends within the bound against every port, and the last outcome decides how: done exactly when completed, aborted exactly by a conflict, exhausted exactly when the strategy the rejection calls for has no use or wire call left, and otherwise returned as unresolved; every earlier outcome called for a preparation, and each strategy was used as often as it was called for |
| `Failover.TableIsExact` | mote-kernel/src/mote_kernel/failover/policy.py:98-126 | the table gives a strategy exactly for the listed pairs of status and hint, and nothing for any other rejection |
| `Failover.UsesAreHistory` | mote-kernel/src/mote_kernel/failover/plan.py:336-354 | after every sequence of outcomes the uses of a strategy are the outcomes that called for it |
| `Failover.LimitMeaning` | mote-kernel/src/mote_kernel/failover/plan.py:99-107 | the limit of a strategy is its own if the budget lists it, and the default otherwise |
| `Failover.RuleApplies` | mote-kernel/src/mote_kernel/failover/policy.py:98-111 | no rule of the fixed table is shadowed by an earlier one |
| `Failover.BackoffSeconds` | mote-kernel/src/mote_kernel/failover/policy.py:225-237 | doubling with a cap at every step computes the capped power of two, raised to a retry-after |
| `Failover.BackoffMonotone` | mote-kernel/src/mote_kernel/failover/policy.py:225-237 | the delay never shrinks from one attempt to the next |
| `Failover.BackoffBounds` | mote-kernel/src/mote_kernel/failover/plan.py:119-136 | without a retry-after the delay lies between base and cap; with one it is exactly the larger of the two |
| `Observe.ProjectionsAreTotal` | mote-kernel/src/mote_kernel/observe/contract.py:149-231 | every non-empty family projection of an admitted window is an admitted batch of that family: none can fail |
| `Observe.ProjectionsPartition` | mote-kernel/src/mote_kernel/observe/contract.py:297-329 | the four projections partition the window, each in its order |
| `Observe.FamiliesForDeliveries` | mote-kernel/src/mote_kernel/observe/contract.py:408-424 | the loop lists exactly the non-Config families present, once each, in the order first seen |
| `Observe.IsFifoSubsequence` | mote-kernel/src/mote_kernel/observe/contract.py:178-199 | the greedy scan decides exactly whether one list is a subsequence of the other |
| `Observe.ReceiptIsInterleaving` | mote-kernel/src/mote_kernel/observe/contract.py:707-738 | a batch receipt is accepted exactly when the acknowledged ids, none repeated, are an interleaving of the Config ids and the Context ids |
| `Utf8.DecodeEncoded` | mote-kernel/src/mote_kernel/observe/identity.py:161-182 | UTF-8 decoding undoes encoding, as section 3 of RFC 3629 defines them |
| `Utf8.EncodeDecoded` | mote-kernel/src/mote_kernel/observe/identity.py:196-222 | every byte string that decodes is the encoding of what it decodes to |
| `WaitCodec.ReadAreFields` | mote-kernel/src/mote_kernel/observe/identity.py:196-224 | reading length-prefixed fields recognises exactly their concatenation |
| `WaitCodec.Decoded` | mote-kernel/src/mote_kernel/observe/identity.py:184-249 | the parsing loop computes the specified decoding |
| `WaitCodec.WaitFormat` | mote-kernel/src/mote_kernel/observe/identity.py:161-182 | the payload is the marker mote.observe.wait.v1, the stream, the two numbers in decimal and the wake, as length-prefixed fields |
| `WaitCodec.DecodeEncodedWait` | mote-kernel/src/mote_kernel/observe/identity.py:161-249 | whatever encodes decodes to itself |
| `WaitCodec.EncodeDecodedWait` | mote-kernel/src/mote_kernel/observe/identity.py:161-249 | every accepted payload is the encoding of what it decodes to |
| `WaitCodec.DecodingIsTotal` | mote-kernel/src/mote_kernel/observe/identity.py:184-249 | decoding any byte string succeeds or reports the identity error |
| `WaitCodec.EncodingOutcome` | mote-kernel/src/mote_kernel/observe/identity.py:161-182 | encoding succeeds exactly when the bytes fit in 4096; the runtime's number-size error escapes exactly for a number from the 4300th power of ten on |
| `WaitCodec.HugeNumberEscapes` | mote-kernel/src/mote_kernel/observe/identity.py:161-182 | a valid wait with such a number leaks the number-size error |
| `SessionCodec.EncodedSessionDecodes` | mote-kernel/src/mote_kernel/session.py:173-193 | an accepted encode decodes under the same Config to an equal Session |
| `SessionCodec.DecodedSessionEncodes` | mote-kernel/src/mote_kernel/session.py:212-232 | an accepted decode re-encodes raw to the same envelope, and through the full encoder exactly when the caller's equality is reflexive on the decoded values |
| `SessionCodec.RecoveryAdmitsDecoded` | mote-kernel/src/mote_kernel/execution/persistence.py:808-820 | recovery accepts a Session the Agent decoded exactly under that condition |
| `SessionCodec.WrittenSessionRecovers` | mote-kernel/src/mote_kernel/session.py:173-193 | every envelope the kernel wrote decodes, and recovery admits the decoded Session, for every symmetric and transitive equality |
| `SessionCodec.IrreflexiveEqualityIsRejected` | mote-kernel/src/mote_kernel/execution/persistence.py:808-820 | with an equality that never holds, a decoded Session is rejected by recovery |
| `Act.ActSafety` | mote-kernel/src/mote_kernel/act/node.py:317-330 | over every sequence of answers, across the interrupt, the resume and lost executions: whatever reaches execution was allowed by the resumed authorization holding exactly that invocation; the settled identity is the pairing, binding and arguments digest of every one executed; confirmed stages are a prefix of resolve, authorize, execute, settle, complete exactly when done |
| `Act.RunFollowsItsAnswers` | mote-kernel/src/mote_kernel/act/resolve.py:70-95 | until an authorization is resumed no run goes on with an invocation of another request; the authorization it carries is the one of the last resume, in its resumed form and for its own pairing; what settles, and what a done run holds, is the receipt the settlement answered last |
| `Act.AskedOnce` | mote-kernel/src/mote_kernel/act/authorize.py:92-121 | over every sequence of answers one authorization is requested at most, and exactly one before anything is executed |
| `Act.AllowedRunIsDone` | mote-kernel/src/mote_kernel/act/node.py:317-400 | every request that resolves and is allowed can run to the end: the stages in order, one execution of the resumed invocation, and the receipt of the settlement under its identity |
| `Act.ExecutionsAreCounted` | mote-kernel/src/mote_kernel/act/execute.py:72-94 | the execute port is called once for every lost execution and at most once more, exactly once more in a run that is done |
| `Act.LostExecutionRepeats` | mote-kernel/src/mote_kernel/act/execute.py:72-94 | a run whose first execution is lost hands the same allowed invocation to the execute port twice |
| `Act.StepKeepsInv` | mote-kernel/src/mote_kernel/act/authorize.py:92-121 | every step of the run keeps the stage, authorization and identity invariant |
| `Act.HookKeepsInv` | mote-kernel/src/mote_kernel/act/admission.py:234-251 | a Hook answer, accepted or not, keeps the stage, authorization and identity invariant |
| `Act.PortDecidesWhatExecutes` | mote-kernel/src/mote_kernel/act/node.py:346-400 | what executes is what the authorize port put into the resumed authorization: neither the caller's verdict nor the invocation resolved before the interrupt is compared with it |
| `Resources.AdvanceLoop` | mote-kernel/src/mote_kernel/state/graph_state/resource_reducer.py:82-97 | the acquisition loop computes the specified advance |
| `Resources.AcquireValidates` | mote-kernel/src/mote_kernel/state/graph_state/resource_reducer.py:100-120 | acquiring keeps a snapshot valid |
| `Resources.ValidatesIffOrderly` | mote-kernel/src/mote_kernel/state/graph_state/resource_reducer.py:180-191 | validation accepts exactly the snapshots whose queues are in acquisition order and whose participants hold what they head |
| `Resources.ReleaseLoop` | mote-kernel/src/mote_kernel/state/graph_state/resource_reducer.py:133-150 | the promotion loop over the resources computes the specified release |
| `Resources.ReleaseAcceptedIff` | mote-kernel/src/mote_kernel/state/graph_state/resource_reducer.py:123-177 | a release from a valid snapshot is accepted if and only if nobody it lets through has to queue up behind a participant that acquired later, which can be decided before the release |
| `Resources.ReleaseCanBeRejected` | mote-kernel/src/mote_kernel/state/graph_state/resource_reducer.py:123-191 | releasing the first of three participants of a valid snapshot can be rejected by the reducer's own replay |

## Left out

- Graph construction, compilation, routing, joins and node execution: what the engine schedules is any sequence of commands here.
- Config resolution, selectors, cursors and port decorators: typed wiring; the Config cursor of frames, states and commits is not modelled.
- Session metadata inside durable commits and checkpoints: the Session is modelled on its own in `SessionOwner` and `SessionCodec`.
- Child boundaries rebuilt for completed children on a cold start, and the input-availability checks of complete contexts.
- Frame declarations: a frame is an opaque value, so admission of names and types is the `fits` parameter of the codec.
- Terminal children admitted during the walk (completed, failed, aborted phases) and owner clean-up after an exception.
- `_drive_workers`, task groups, shields and other asyncio mechanics beyond the cancellation protocol.
- Authority acquisition, latest-head generations and adapter-side fencing.
- ReAct and Hook graph assembly, observability, logging, events beyond their identity, examples and the other languages of the repository.
- Python type-exactness and forged-instance checks: Dafny's types give these.
- GraphState.ValidationRejectsOnlyConflictingCompletion: Join progress, activation causes, the Config cursor and resource snapshots are not part of the state, so their checks are not part of the validation.
- GraphCommit.PreparedExactly: the check of a candidate against its compiled graph (routing, targets, definition) is not part of it.
- GraphCommit.ValidationIsExact: resume inputs, child boundaries and input availability are not part of the validated context.
- Restoration.RestoreCheckpoint: the lineage, graph and Config checks of a checkpoint are not part of it, and child boundaries are not rebuilt.
- Restoration.RestoredContextValidates: the child-read part of context validation is proved on its own in `ChildReads`.
- ResumeAcceptance.PlanResumes: the resume codec, the admission of the answered frame and its Config are parameters: a request carries payload and frame as admitted.
- FamilyDriver.Admission.AdmitChildren: children that are completed, failed or aborted make no commit and are not represented as calls.
- Failover.Operate: the port's answer to the k-th call is given by a function of k, so a port that reacts to the prepared request is covered through the sequence of answers it gives, not through its inputs.
- Writer.Store.Commit: exceptions raised by an adapter are not outcomes here; the writer passes them on unchanged.
