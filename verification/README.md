# Verified model of the agent runtime's database layer

This project models the rules kept by the database layer of a multi-tenant agent runtime: how a
tenant policy is compiled into snapshots and handed down, how many agent runs a tenant may hold, how
a conversation's transcript grows, how versions are published and rolled back, how a flow is
compiled into a plan, and how an evaluation run decides whether a candidate may be published.

Each repository is a set of rows and a set of calls. A call is a pure function on the rows, a class
whose fields are the rows updates them in place and is proved equal to that function, and the
properties are proved about the function: what one call answers, and what every run of calls keeps.
Where the guard of a call sits in the update's own condition or under a lock, the call is split into
its statements and every interleaving is covered: admissions, conversation turns, evaluation runs
and logical tool calls. Where the code reads and then writes without a guard, a call is one step:
registry, publish and rollback, datasets, gate.

A SHA-256 hash stands for the content it is taken over, a random identifier for an argument that is
not yet used, and a thrown error inside a transaction leaves every row as it was.

## Modules

- `CanonicalJson`: the sorted form under every hash.
- `TenantPolicy`, `PolicyRelease`, `SnapshotLineage`: policies, their release, and the tree of snapshots.
- `Admission`, `LogicalCalls`: two protocols that bound slots.
- `Conversation`: one conversation, its turns and its context window.
- `Registry`: versioned specs, the status table and rollback.
- `FlowPlan`, `FlowPlanLaws`, `FlowOrder`: compiling a flow, what the plan contains, and what the order of its steps decides.
- `DatasetContent`, `GatePolicies`, `Datasets`, `DatasetLaws`: evaluation datasets, their hash, and the gate policies that require them.
- `EvaluationRun`, `Scoring`, `Aggregation`, `SystemErrors`, `Comparison`, `Gate`, `GateDatasets`: from one scored case to the publish decision.
- `Results`, `Versions`, `Lists`, `Reals`, `Texts`, `Sorting`: shared notions.

## Where the code does less than it seems to promise

Each of these is stated with the exact condition under which the code does meet the expectation.

- The hash of a value ignores key order if and only if no object inside it holds two keys that collate
  as equal; tied keys keep their insertion order (`CanonicalJson.FormIgnoresKeyOrderExactlyWhen`).
- Marking a policy version validated has no status guard, so a published version can be reopened,
  edited and published again; its content is frozen until that call (`PolicyRelease.OnlyRevalidationReopens`).
- The pinned policy hash covers the row's status, so deprecating or replacing a policy stops every
  further derivation below it (`SnapshotLineage.ChangedPolicyStopsDerivation`).
- A snapshot made without a policy in development mode permits its whole plan, and everything derived
  below it permits no tool (`SnapshotLineage.PlanOnlyPermitsThePlan`, `SnapshotLineage.BelowPlanOnlyNothingIsPermitted`).
- A reserve for a task whose slot was released, reconciled or orphaned is answered "accepted" without
  holding a slot (`Admission.AcceptedHoldsUnlessGivenUp`).
- The conflict "already finalised with other content" is only ever reported for a user message: for
  other text, any task run or another agent run (`Conversation.ConflictOnlyForUserMessages`).
- Two tools whose names collate as equal stay in the order the steps ask for them, so reordering the
  steps changes the plan's tools if and only if two steps would put two tied versions in opposite orders
  (`FlowOrder.ToolsForgetStepOrderExactlyWhen`, `FlowOrder.TiedToolsKeepStepOrder`). That no two wanted
  versions tie is enough, but not needed: one step never contests its own order
  (`FlowOrder.OneStepNeverContests`). It is exactly what makes the entries ascend strictly
  (`FlowPlanLaws.StrictlyAscendsExactlyWhen`).
- A registry rollback rewrites the status inside the specs it takes down but not their stored hash
  (`Registry.RollbackLeavesStaleHashes`).
- Overlapping cancellation requests can lose the first one's time: a recorded time changes if and only
  if a request's update takes effect and carries another time than the row's
  (`EvaluationRun.RequestTimeChangesExactlyWhen`), and over a whole run the first time survives if and
  only if every request that takes effect carries that time
  (`EvaluationRun.FirstTimeSurvivesExactlyWhen`).
- A run that is over keeps its status but not always its outcome: a step changes the result if and only
  if it completes a completed run with another result, and the error if and only if it fails a failed run
  with another code (`EvaluationRun.OutcomeChangesExactlyWhen`). Over a whole run the first outcome
  survives if and only if every completion or failure that takes effect carries it
  (`EvaluationRun.FirstOutcomeSurvivesExactlyWhen`, `EvaluationRun.CompletedResultIsReplaced`,
  `EvaluationRun.FailedErrorIsReplaced`).
- A dataset version written with an empty description stores a hash that its own content never has: the
  stored hash is stale if and only if the last call that stored one wrote an empty description
  (`DatasetLaws.StaleExactlyWhen`).
- No case is ever deleted where the trigger of the shipped schema is in place
  (`DatasetLaws.DeleteUnderTriggerRefuses`).
- Deprecating and rolling back publishes any dataset version as it stands, empty or disabled ones
  included, and likewise a gate policy whose requirements fail
  (`DatasetLaws.PublishedEmptyExactlyByRollback`, `DatasetLaws.UncheckedPolicyExactlyByRollback`,
  `DatasetLaws.UncheckedPolicyIsReached`).
- A case in which every check holds can score less than 1, and fail, because a tool expectation with
  room between its bounds is scored by its upper bound. With N scored metrics it fails under a minimum m
  if and only if the expectations met short lose more than (1 - m) * N together
  (`Scoring.FaultlessCaseFailsExactlyWhen`, `Scoring.OneCallOfTwoFails`).
- A gate policy declares a greatest system error rate that the decision never reads. A run above it
  passes if and only if its passes, points and gates suffice
  (`SystemErrors.AboveRatePassesExactlyWhen`), and no such run passes if and only if the least pass rate
  and the greatest error rate add up to 1 at least (`SystemErrors.DeclaredRateKeptExactlyWhen`). Under
  limits of 0 a run of a single system error passes (`SystemErrors.OneSystemErrorPasses`).
- A run compared with itself is a critical regression if one of its results failed a hard gate
  (`Comparison.SelfComparisonIsCriticalExactlyWhen`).
- The first decision about an exact candidate and policy is never replaced, so a candidate that failed
  once stays blocked whatever a later run shows (`Gate.FailedCandidateStaysBlocked`).
- The datasets a gate policy requires need not be evaluated. The one run behind an allowed publish is on
  a required version with the required hash if and only if the policy names the version it is on
  (`GateDatasets.AllowedPublishOnRequiredExactlyWhen`); whatever the policy's limits, a publish can be
  allowed although no run was ever on the version it requires (`GateDatasets.AllowedOnAnotherDataset`).
- A publish can be allowed without an override although not one case had a result that counts, if and
  only if the policy sets neither a least pass rate nor a least weighted score, as by default
  (`GateDatasets.AllowedOnNothingExactlyWhen`).

## Model

| member | source | states |
|---|---|---|
| `CanonicalJson.SortKeepsMeaning` | packages/db/src/repositories.ts:8014-8028 | sorting keeps the content of every JSON value: the same members with the same values at every depth |
| `CanonicalJson.SortIsCanonical` | packages/db/src/repositories.ts:8014-8028 | the result has its keys in order at every depth |
| `CanonicalJson.SortIsIdempotent` | packages/db/src/repositories.ts:8014-8028 | sorting a sorted value changes nothing, ties included |
| `CanonicalJson.SortSeparates` | packages/db/src/repositories.ts:798-800 | values with equal sorted forms have equal content, so hashes separate different content under every collation |
| `CanonicalJson.SortIsCanonicalForm` | packages/db/src/repositories.ts:823-825 | for a value without tied keys, sorted forms are equal if and only if the values differ in key order alone |
| `CanonicalJson.FormIgnoresKeyOrderExactlyWhen` | packages/db/src/registry.ts:819-835 | every value of the same content has the same form if and only if no object inside the value holds two keys that tie |
| `CanonicalJson.TiedKeysChangeTheForm` | packages/db/src/repositories.ts:8014-8028 | a value with tied keys at any depth has the same content as another one with another form |
| `CanonicalJson.TiedKeysKeepInsertionOrder` | packages/db/src/repositories.ts:8014-8028 | two keys that collate as equal give two values of equal content with different forms |
| `CanonicalJson.KeyOrderIgnoredExactlyWhenDiscriminating` | packages/db/src/registry.ts:819-835 | all values at once: no hash depends on key order if and only if the collation ties no two keys |
| `TenantPolicy.PlanModelEntries` | packages/db/src/tenant-policy.ts:563-574 | the loop over a mutable map collects the merged model entries of the plan |
| `TenantPolicy.MergeMeaning` | packages/db/src/tenant-policy.ts:563-593 | merging keeps one entry per model id and exactly the names that some raw entry of that id has |
| `TenantPolicy.ToolDecisionAgrees` | packages/db/src/tenant-policy.ts:396-458 | the snapshot check accepts a tool operation if and only if the plan lists that version at a risk within the bound of some allow rule about it, in the order L0 to L4 written out, no deny rule is about it, and some allow rule about it grants the operation |
| `TenantPolicy.ModelDecisionAgrees` | packages/db/src/tenant-policy.ts:460-486 | the snapshot check accepts a model request if and only if it names a model of the plan that some allow rule and no deny rule names by one of its names, with the names written out from the plan |
| `TenantPolicy.HandoffDecisionAgrees` | packages/db/src/tenant-policy.ts:488-501 | the snapshot check accepts a handoff if and only if the plan allows it, an allow rule matches and no deny rule does |
| `TenantPolicy.CompiledRulesNameThePlan` | packages/db/src/tenant-policy.ts:396-438 | every compiled rule is for one version of the plan and records its risk, a denied one with every operation and the reason, a handoff for itself as flow and as plan |
| `TenantPolicy.StricterRulesPermitLess` | packages/db/src/tenant-policy.ts:634-682 | adding deny rules never enlarges and adding allow rules never shrinks what the snapshot accepts, for tools, models and handoffs |
| `TenantPolicy.TooRiskyIsRefused` | packages/db/src/tenant-policy.ts:634-681 | a tool above the bound of every allow rule about it is refused for every operation |
| `TenantPolicy.AtTheBoundIsAccepted` | packages/db/src/tenant-policy.ts:634-681 | a tool at the very bound of a rule about it is accepted for the operations that rule grants, unless it is denied |
| `TenantPolicy.SaferKeepsPermissions` | packages/db/src/tenant-policy.ts:634-681 | lowering the risk of plan tools never takes a permission away |
| `TenantPolicy.CapIsGreatestLowerBound` | packages/db/src/tenant-policy.ts:613-632 | each capped limit is the largest value within both plan and cap, an absent cost meaning no bound, and the result is a valid budget |
| `TenantPolicy.SnapshotBudget` | packages/db/src/tenant-policy.ts:396-438 | each limit of a compiled snapshot is the greatest value that both the cap and the plan admit, the plan's own limits being its budget, or its steps, tools and tokens with the schema defaults |
| `PolicyRelease.PolicyTable.CreateDraft` | packages/db/src/repositories.ts:5511-5549 | the rows in place become those of the specification of a draft insert |
| `PolicyRelease.PolicyTable.UpdateDraft` | packages/db/src/repositories.ts:5551-5601 | the rows in place become those of the guarded draft update, or stay |
| `PolicyRelease.PolicyTable.CloneVersion` | packages/db/src/repositories.ts:5603-5630 | the rows in place gain the cloned draft or stay |
| `PolicyRelease.PolicyTable.SetStatus` | packages/db/src/repositories.ts:5783-5806 | the status update without a status guard |
| `PolicyRelease.PolicyTable.Activate` | packages/db/src/repositories.ts:3054-3083 | the activating update in place: the published version is taken down first, and put back when the target cannot be activated |
| `PolicyRelease.PolicyTable.Publish` | packages/db/src/repositories.ts:3025-3104 | publish in place: the preliminary deprecation is undone when the target cannot be published |
| `PolicyRelease.PolicyTable.Rollback` | packages/db/src/repositories.ts:3163-3234 | rollback in place, all or nothing |
| `PolicyRelease.ReleaseIsExclusive` | packages/db/src/repositories.ts:5640-5772 | a successful publish or rollback leaves exactly the chosen version published, as one more revision of its own content, and every other row as it was but for the status of the one taken down; a failed one leaves all rows as they were |
| `PolicyRelease.ReleaseSucceedsExactlyWhen` | packages/db/src/repositories.ts:3025-3234 | a publish succeeds if and only if the version is in editing and of the expected revision; a rollback if and only if it is not a draft nor, for a tenant policy, live |
| `PolicyRelease.EditingCalls` | packages/db/src/repositories.ts:5511-5638 | exactly when a draft is inserted, updated or given a status, the row it then is, and that nothing else changes |
| `PolicyRelease.CloneIsADraft` | packages/db/src/repositories.ts:5603-5630 | a clone is a new draft of the source's content, at the version given or the one after the greatest |
| `PolicyRelease.NeverTwoPublished` | packages/db/src/repositories.ts:3025-3234 | over every run of calls at most one version is published |
| `PolicyRelease.OnlyRevalidationReopens` | packages/db/src/repositories.ts:3017-3023 | a released version becomes editable again if and only if the call marks it validated |
| `PolicyRelease.FrozenUntilRevalidated` | packages/db/src/repositories.ts:2906-2979 | over every run without that call a released version keeps its content and stays released, and revisions never fall |
| `PolicyRelease.RevalidationRewritesPublished` | packages/db/src/repositories.ts:5632-5638 | from every table with a published version, three calls publish the same version with any other content |
| `SnapshotLineage.PolicyDatabase.CreateImmutableSnapshot` | packages/db/src/repositories.ts:5812-5909 | the insert in place: a malformed lineage is refused, equal content returns the stored snapshot |
| `SnapshotLineage.PolicyDatabase.ResolvePolicy` | packages/db/src/tenant-policy.ts:189-234 | resolving a root in place, in required and in development mode |
| `SnapshotLineage.PolicyDatabase.DeriveForExecutionPlan` | packages/db/src/tenant-policy.ts:236-322 | deriving a child in place, with every check in the code's order |
| `SnapshotLineage.LineageEndsAtRoot` | packages/db/src/repositories.ts:5812-5909 | in a forest, exactly `depth` parent steps lead from a snapshot to its root, and no more |
| `SnapshotLineage.RunKeepsForest` | packages/db/src/tenant-policy.ts:189-322 | every run of resolve, derive, plan and policy calls keeps the snapshots a forest and changes no stored snapshot |
| `SnapshotLineage.EverySnapshotTracesToItsRoot` | packages/db/src/tenant-policy.ts:236-322 | in every reachable state a snapshot is at most 8 deep and its root is a self-rooted snapshot of the same tenant that pins the same policy version and hash |
| `SnapshotLineage.ResolveSucceedsExactlyWhen` | packages/db/src/tenant-policy.ts:189-234 | a root is stored if and only if a plan of that hash exists and, unless the mode does without, a published policy; it is self-rooted, pins the greatest published version with its hash and is compiled from it, or stands for the plan alone; otherwise nothing changes |
| `SnapshotLineage.LineageIsReached` | packages/db/src/tenant-policy.ts:189-322 | from the empty store, five calls reach a root and a child one step below it, both compiled from the published rules |
| `SnapshotLineage.DeriveSucceedsExactlyWhenDerivable` | packages/db/src/tenant-policy.ts:236-322 | a derivation succeeds if and only if parent, tenant, plan, depth and the unchanged pinned policy allow it, stores exactly the derived content, and otherwise changes nothing |
| `SnapshotLineage.RepeatedDeriveReturnsTheChild` | packages/db/src/repositories.ts:5830-5909 | after any further run, repeating a derivation that still succeeds returns the first child and stores nothing |
| `SnapshotLineage.RequiredRunCompiles` | packages/db/src/tenant-policy.ts:189-322 | in required mode every stored snapshot is the compilation of its pinned rules against its own plan |
| `SnapshotLineage.SnapshotObeysPinnedRules` | packages/db/src/tenant-policy.ts:396-515 | in required mode a snapshot anywhere in a lineage decides tools, models and handoffs, for a caller that presents its tenant, hash and plan and no other, exactly as its root's pinned rules do on its plan, and every limit is within the pinned cap, whatever the policy rows say now |
| `SnapshotLineage.ChangedPolicyStopsDerivation` | packages/db/src/repositories.ts:7978-7992 | a derivation below a policy whose row changed in status or content fails and changes nothing |
| `SnapshotLineage.PlanOnlyPermitsThePlan` | packages/db/src/tenant-policy.ts:521-555 | a root made without a policy permits exactly the tools of its plan, with every operation, its models and its handoffs, within the plan's own limits |
| `SnapshotLineage.BelowPlanOnlyNothingIsPermitted` | packages/db/src/tenant-policy.ts:541-555 | a snapshot derived below such a root permits no tool at all |
| `Admission.NeverOverLimit` | packages/db/src/repositories.ts:6023-6069 | under every interleaving of reserve statements and all other updates, a tenant whose reserves ask for at most M never has more than M admissions reserved or active, and no task has two rows |
| `Admission.StepNeverRegains` | packages/db/src/repositories.ts:6071-6275 | one statement moves a row only forward from reserved to active to given up, and keeps its task, tenant and snapshot |
| `Admission.NeverHoldsAgain` | packages/db/src/repositories.ts:6128-6275 | over every interleaving a row that has given up its slot never holds one again |
| `Admission.ReserveIsTheStepsInARow` | packages/db/src/repositories.ts:6023-6069 | the whole reserve call is its steps run without interruption |
| `Admission.RetryTakesNoSecondSlot` | packages/db/src/repositories.ts:6035-6041 | a retry of a task that holds its slot answers with the same row and changes nothing |
| `Admission.FirstReserve` | packages/db/src/repositories.ts:7912-7976 | a new task gets one row, reserved if and only if the tenant was below the limit, else rejected with its reason |
| `Admission.ReserveOfKnownTask` | packages/db/src/repositories.ts:6023-6069 | what a reserve answers for a task that has a row: conflict of tenant or snapshot, accepted while it holds its slot, refused when rejected, else by the count; it never changes a row |
| `Admission.GivingUpFreesTheSlot` | packages/db/src/repositories.ts:6128-6275 | release and reconcile end a row that holds a slot or is orphaned, a rejection any row, with status, reason and revision; the tenant has exactly one slot less if the row held one |
| `Admission.KeepingTheSlot` | packages/db/src/repositories.ts:6071-6126 | activating turns a reserved row active, attaching records a run or a workflow, and no slot is taken or freed |
| `Admission.ReleaseMakesRoom` | packages/db/src/repositories.ts:6023-6153 | at the limit a new task is refused, and after one release accepted with a slot |
| `Admission.UpdatesAndAborts` | packages/db/src/repositories.ts:6023-6275 | an update changes no reserve in progress, and a reserve given up at any point frees its lock alone |
| `Admission.AcceptedHoldsUnlessGivenUp` | packages/db/src/repositories.ts:7928-7976 | an accepted answer names a row that holds a slot if and only if no released, reconciled or orphaned row existed for it |
| `Admission.ReleasedTaskIsAcceptedWithoutASlot` | packages/db/src/repositories.ts:7951-7976 | a concrete table in which a task is accepted without a slot |
| `Admission.AdmissionTable.ReserveSlot` | packages/db/src/repositories.ts:6023-6069 | the reserve call on rows in place is the specification's |
| `Admission.AdmissionTable.InsertAdmission` | packages/db/src/repositories.ts:7928-7976 | the insert on rows in place, or the row that is already there |
| `Admission.AdmissionTable.Apply` | packages/db/src/repositories.ts:6071-6275 | activate, attach, release, reject and reconcile on rows in place |
| `LogicalCalls.NeverOverTheLimit` | packages/db/src/repositories.ts:4985-5044 | under every interleaving under the lock, a case never has more logical calls of one tool reserved than the greatest limit used, and no reservation is lost |
| `LogicalCalls.LimitHoldsFromTheStart` | packages/db/src/repositories.ts:4985-5044 | the same for every run from the empty table |
| `LogicalCalls.ReserveIsTheStepsInARow` | packages/db/src/repositories.ts:4985-5044 | the whole call is its steps run without interruption, and leaves no lock |
| `LogicalCalls.AnswerCountsReservations` | packages/db/src/repositories.ts:4998-5042 | the answer's count is the number of reservations after the call, and a call is allowed if and only if its id is reserved afterwards |
| `LogicalCalls.FirstComeFirstServed` | packages/db/src/repositories.ts:4998-5042 | a logical id is allowed if and only if it is among the first `limit` distinct ids asked for |
| `LogicalCalls.SameLockExactlyWhenSameSlot` | packages/db/src/repositories.ts:4985-4995 | calls share the advisory lock if and only if they are for the same tool of the same case, run and tenant, their ids holding no colon |
| `LogicalCalls.ReservationTable.ReserveLogicalCall` | packages/db/src/repositories.ts:4985-5044 | the call on rows in place is the specification's |
| `Conversation.TranscriptAlwaysHolds` | packages/db/src/repositories.ts:3734-3867 | over every interleaving the messages carry exactly the numbers 1 to next minus 1, odd ones from the user, even ones the reply to the message before, and at most one is in flight |
| `Conversation.InsertMeetsEveryIndex` | db/migrations/003_conversation_mvp.sql:115-124 | the insert never meets the unique indexes on sequence number, client id or in-flight turn |
| `Conversation.RunKeepsMessages` | packages/db/src/repositories.ts:3869-3959 | over every run no message disappears, a user message changes in its agent run at most, and a final reply is never in flight again |
| `Conversation.SendIsTheStepsInARow` | packages/db/src/repositories.ts:3734-3867 | a send by the owner of an active conversation, whether it inserts, replays or is refused, is its steps run without interruption and leaves no lock |
| `Conversation.FirstSendInserts` | packages/db/src/repositories.ts:3797-3850 | a send under a new client id is refused for a turn in progress if and only if some reply has not ended; otherwise it inserts exactly the completed user text and an empty queued reply to it |
| `Conversation.LockKeepsTheRow` | packages/db/src/repositories.ts:3734-3767 | while a send holds the lock the conversation row changes by that send alone |
| `Conversation.ResendReturnsTheOriginal` | packages/db/src/repositories.ts:3755-3800 | after any further run, resending the same text under the same client id returns the original pair and changes nothing; other text is refused |
| `Conversation.ConflictOnlyForUserMessages` | packages/db/src/repositories.ts:3904-3949 | completing reports a conflict if and only if the id is a user message and the text differs, a task run is given or another agent run is given; a final reply is silently completed again |
| `Conversation.UpdateTouchesOneMessage` | packages/db/src/repositories.ts:3869-4080 | an update of a message changes that message alone, and of it status, content and links alone |
| `Conversation.ReplyEnds` | packages/db/src/repositories.ts:3904-4080 | completing, failing and cancelling store their own status, only completing a content, and links that are given |
| `Conversation.LinksAreStored` | packages/db/src/repositories.ts:3869-3902 | a link stores that run and nothing else; a task run is linked only to the reply to its own message |
| `Conversation.EndedReplyLeavesTheWindow` | packages/db/src/repositories.ts:3961-3999 | a reply that failed or was cancelled is in no context window |
| `Conversation.EndedReplyFreesTheTurn` | packages/db/src/repositories.ts:3734-3867 | a send refused for a turn in progress goes through once that reply has ended |
| `Conversation.CompletedMessagesInOrder` | packages/db/src/repositories.ts:3961-3999 | the candidates of a window are exactly the completed messages, each once, in ascending sequence order |
| `Conversation.LongerCostsMore` | packages/db/src/repositories.ts:3978-3998 | a longer suffix never has fewer bytes, so stopping at the first message that does not fit is right |
| `Conversation.SelectContext` | packages/db/src/repositories.ts:3978-3999 | the loop returns the longest suffix within both limits: every longer suffix violates one of them |
| `Conversation.ConversationTables.AllocateSequenceRange` | packages/db/src/repositories.ts:3579-3610 | the counter in place hands out the next numbers and nothing else changes |
| `Conversation.ConversationTables.InsertTurn` | packages/db/src/repositories.ts:3797-3850 | both rows of a turn inserted in place with the next two numbers |
| `Conversation.ConversationTables.CreateUserAndAssistantTurn` | packages/db/src/repositories.ts:3734-3867 | a send on the tables in place is the specification's |
| `Conversation.ConversationTables.UpdateMessage` | packages/db/src/repositories.ts:3869-4080 | complete, fail, cancel and the two links to runs on the message in place |
| `Conversation.ConversationTables.UpdateTitle` | packages/db/src/repositories.ts:3495-3545 | rename in place under its owner and revision guards |
| `Conversation.ConversationTables.SetStatus` | packages/db/src/repositories.ts:3547-3657 | archive and unarchive in place |
| `Conversation.ConversationTables.ListCompletedContextMessages` | packages/db/src/repositories.ts:3961-3999 | the window read from the tables is the longest fitting suffix of the completed messages |
| `Registry.CallFollowsTheTable` | packages/contracts/src/index.ts:923-959 | every call, rollback's bulk update included, moves every version along the status table or leaves it; a version past editing keeps its body, revisions never fall, a failed call changes nothing |
| `Registry.TransitionSucceedsExactlyWhen` | packages/contracts/src/index.ts:923-959 | a transition succeeds if and only if the version has the expected revision and the move is to its own status or one of the eleven pairs of the table; it keeps the body, renews the hash and takes the gray list given |
| `Registry.EditingCalls` | packages/db/src/registry.ts:214-309 | exactly when a draft is inserted or updated, and the row it then is |
| `Registry.CloneIsADraft` | packages/db/src/registry.ts:311-332 | a clone is a new draft of the source's body, at the version given or the one after the greatest |
| `Registry.RollbackSucceedsExactlyWhen` | packages/db/src/registry.ts:374-404 | a rollback succeeds if and only if the target is published, and deprecates exactly the live versions above it, in row and spec but not in the hash |
| `Registry.PublishedForGood` | packages/db/src/registry.ts:237-372 | over every run a version past editing never returns to it and keeps its body, and deprecated and disabled are final |
| `Registry.SpecsNameTheirRows` | packages/db/src/registry.ts:487-553 | over every run each stored spec names its row's version and status |
| `Registry.RollbackLeavesStaleHashes` | packages/db/src/registry.ts:374-404 | after a call the stored hashes are those of the specs if and only if the call is not a rollback that takes a version down |
| `Registry.WithoutRollbackHashesStayCurrent` | packages/db/src/registry.ts:214-372 | over every run without rollback the stored hashes are those of the specs |
| `Registry.SelectVersionMeaning` | packages/db/src/registry.ts:414-464 | a request gets a version if and only if it is the newest gray one that lists the caller, or there is none and it is the newest published one |
| `Registry.RollbackActivates` | packages/db/src/registry.ts:374-404 | after a rollback nothing above the target is live, older versions are untouched, the target is the latest published one, and a caller gets it if and only if no older gray version lists the caller |
| `Registry.RegistryTable.CreateDraft` | packages/db/src/registry.ts:214-235 | the draft insert in place |
| `Registry.RegistryTable.CloneVersion` | packages/db/src/registry.ts:311-332 | the cloned draft in place |
| `Registry.RegistryTable.UpdateDraft` | packages/db/src/registry.ts:237-309 | the guarded draft update in place |
| `Registry.RegistryTable.Transition` | packages/db/src/registry.ts:487-553 | the status change in place |
| `Registry.RegistryTable.Rollback` | packages/db/src/registry.ts:374-404 | the rollback in place |
| `FlowPlan.ToolEntries.AddToolEntry` | packages/db/src/repositories.ts:6959-6969 | the map of entries in place: one entry per version, the first step id kept, another hash refused |
| `FlowPlan.ToolEntries.AddRefs` | packages/db/src/repositories.ts:1206-1215 | the loop over an agent's tools adds each resolved entry or stops at the first error |
| `FlowPlan.ParseToolRefs` | packages/db/src/repositories.ts:6717-6725 | every reference parsed in order, or the error of the first malformed one |
| `FlowPlan.CompileStep` | packages/db/src/repositories.ts:1138-1246 | one step's tools and agent added in place, or its first error |
| `FlowPlan.ResolveAllowedToolRefs` | packages/db/src/repositories.ts:6692-6715 | the selection loop returns what the specification selects, or its first error |
| `FlowPlan.BuildFlowExecutionPlan` | packages/db/src/repositories.ts:1116-1273 | the compile loop over mutable agents and entries gives the specified plan, its tools sorted by the given collation of names and versions, or its first error |
| `FlowPlan.ResolvesExactlyWhenPinned` | packages/db/src/repositories.ts:6916-6957 | a reference resolves if and only if the registry holds that very version, published or gray, and then carries its hash and risk |
| `Texts.ParseReadsBack` | packages/db/src/repositories.ts:6662-6668 | parsing a reference text succeeds with a name and version if and only if the text is that reference and it is well formed |
| `Texts.RefTextIsInjective` | packages/db/src/repositories.ts:845-847 | well-formed references with the same text are the same, so the text serves as a key |
| `Texts.MajorOfVersionText` | packages/db/src/repositories.ts:6948-6957 | reading the major of the version text the registry gives version n returns n |
| `FlowPlanLaws.AddAllCollects` | packages/db/src/repositories.ts:6959-6969 | collecting succeeds if and only if every request resolves, so no hash conflict occurs, and holds exactly the requested versions |
| `FlowPlanLaws.PlanIsClosed` | packages/db/src/repositories.ts:1116-1273 | a version has one entry if and only if a tool step names it or an agent of the flow may use it; entries are in collation order of name, then version; each carries registry hash and risk and the id of the first tool step that names it |
| `FlowPlanLaws.StrictlyAscendsExactlyWhen` | packages/db/src/repositories.ts:6971-6974 | the entries ascend strictly if and only if no two wanted versions tie on name and version |
| `FlowPlanLaws.EntriesArePinned` | packages/db/src/repositories.ts:6916-6946 | every entry is that of one exact published or gray manifest |
| `FlowPlanLaws.AllowedRefsMeaning` | packages/db/src/repositories.ts:6692-6725 | an agent's tools are exactly the override's, or its own, that the tenant allows; all are in the agent's own list; selection fails if and only if a reference is malformed or the override goes beyond that list |
| `FlowPlanLaws.AgentRefsMeaning` | packages/db/src/repositories.ts:6670-6725 | for a usable agent the list of the step, else of the agent, else of all, else its own holds; the tools are those in it that the tenant permits, and they are refused if and only if a list is malformed or goes beyond the agent's own |
| `FlowPlanLaws.PlanBudgets` | packages/db/src/repositories.ts:1240-1264 | the plan has one agent for each agent step, in order, with the registered limits and the names of its tools, and its steps and tokens are the sums of its agents' steps and of their tokens |
| `FlowOrder.BuiltAgents` | packages/db/src/repositories.ts:1152-1246 | the plan's agents are those of the agent steps in order, each with the names of its selected tools and its own budget |
| `FlowPlanLaws.AllowedToolsOfPlan` | packages/db/src/repositories.ts:1258-1262 | the plan's tool names are exactly those of its agents, each once, ascending |
| `FlowPlanLaws.BuildSucceedsExactlyWhen` | packages/db/src/repositories.ts:1116-1273 | a plan is built if and only if the flow is published or gray and every step's tool is pinned, or its agent and prompt are registered and live, its lists fine and every tool it may use pinned, in terms of the registered records alone |
| `FlowOrder.PlanForgetsStepOrder` | packages/db/src/repositories.ts:1240-1273 | reordering the steps never changes whether a plan is built, its tool names or its budgets, and its agents are the same ones; nor its tools, where no two wanted versions tie |
| `FlowOrder.ToolsForgetStepOrderExactlyWhen` | packages/db/src/repositories.ts:6971-6974 | the tools are the same for every order of the steps if and only if no two steps would put two tied versions in opposite orders |
| `FlowOrder.OneStepNeverContests` | packages/db/src/repositories.ts:1206-1215 | one step never puts two versions in both orders |
| `FlowOrder.TiedToolsKeepStepOrder` | packages/db/src/repositories.ts:6971-6974 | two published tools whose different names tie: a plan is built, and some order of the two steps changes its tools |
| `DatasetContent.HashSaysContent` | packages/db/src/evaluation-repositories.ts:2979-3029 | dataset hashes are equal if and only if key, metadata and cases are, whatever the order of cases, tags, context references and forbidden tools |
| `Datasets.DatasetTables.Create` | packages/db/src/evaluation-repositories.ts:271-303 | the draft insert in place with its hash |
| `Datasets.DatasetTables.Update` | packages/db/src/evaluation-repositories.ts:305-359 | the draft update in place, with its hash and revision guard |
| `Datasets.DatasetTables.RefreshContentHash` | packages/db/src/evaluation-repositories.ts:437-472 | the refresh in place: an editable version returns to draft with the recomputed hash, a released one is only compared |
| `Datasets.DatasetTables.UpdateStatus` | packages/db/src/evaluation-repositories.ts:572-600 | the status update in place, whatever the status was |
| `Datasets.DatasetTables.Rollback` | packages/db/src/evaluation-repositories.ts:426-435 | the rollback in place: only to a published or deprecated version |
| `Datasets.DatasetTables.ValidateOrPublish` | packages/db/src/evaluation-repositories.ts:402-416 | validate and publish in place |
| `Datasets.DatasetTables.UpsertCase` | packages/db/src/evaluation-repositories.ts:628-690 | insert or replace of a case in place, and the refreshed hash |
| `Datasets.DatasetTables.DeleteCase` | packages/db/src/evaluation-repositories.ts:692-712 | removal of a case in place, and the refreshed hash, as the repository method has it |
| `DatasetLaws.DeleteUnderTriggerRefuses` | db/migrations/001_baseline.sql:110-125 | under the trigger the call always refuses and changes nothing, so it does what the repository's own steps do if and only if those refuse |
| `Datasets.DatasetTables.CloneVersion` | packages/db/src/evaluation-repositories.ts:361-400 | the copying loop in place; a failure restores the tables |
| `Datasets.DatasetTables.ValidateRequiredDatasets` | packages/db/src/evaluation-repositories.ts:1691-1724 | the checking loop answers with the first requirement that fails |
| `Datasets.DatasetTables.PublishPolicy` | packages/db/src/evaluation-repositories.ts:1521-1551 | publishing a gate policy in place |
| `Datasets.CreateStores` | packages/db/src/evaluation-repositories.ts:271-303 | exactly when a draft is inserted, the row it is, and how it reads back |
| `Datasets.UpdateStores` | packages/db/src/evaluation-repositories.ts:305-359 | exactly when a draft is updated; each field given replaces the old one, the others stay |
| `Datasets.UpsertStores` | packages/db/src/evaluation-repositories.ts:628-690 | exactly when a case is stored; it then replaces the one of its id, every other case stays, and the version is a draft of one more revision |
| `Datasets.DeleteStores` | packages/db/src/evaluation-repositories.ts:692-712 | exactly when a case is removed, and that every other case stays |
| `Datasets.ReleaseStores` | packages/db/src/evaluation-repositories.ts:402-416 | validating and publishing succeed if and only if the version is in editing and has an enabled case, and set that status |
| `Datasets.StatusStores` | packages/db/src/evaluation-repositories.ts:418-435 | exactly when a version is deprecated, disabled or rolled back to, and that its status and revision alone change |
| `Datasets.CloneTargetMeaning` | packages/db/src/evaluation-repositories.ts:361-400 | a clone goes to the id and version given, else to the source's id and the version after the greatest |
| `Datasets.PolicyDrafts` | packages/db/src/evaluation-repositories.ts:1490-1640 | exactly when a gate policy is inserted or updated, and the row it then is |
| `Datasets.PolicyReleases` | packages/db/src/evaluation-repositories.ts:1521-1585 | exactly when a gate policy is validated or published, and the row it then is |
| `Datasets.PolicyStatuses` | packages/db/src/evaluation-repositories.ts:1672-1689 | exactly when a gate policy is deprecated, disabled or rolled back to, and the row it then is |
| `DatasetLaws.CloneOutcome` | packages/db/src/evaluation-repositories.ts:361-400 | a clone is a new draft with the source's metadata and a renamed copy of every case; it fails if and only if the source is missing, the target exists or a new case id is taken, and then changes nothing |
| `DatasetLaws.RunKeepsValid` | packages/db/src/evaluation-repositories.ts:271-729 | every run keeps case ids unique, every case in a dataset, and every stored hash that of the stored content |
| `DatasetLaws.StoredHashIsCurrent` | packages/db/src/evaluation-repositories.ts:437-494 | in every reachable state the stored hash is the hash of the current metadata and cases unless the stored description is the empty string, and the hash assertion accepts exactly that hash |
| `DatasetLaws.CreateLeavesStaleExactlyWhen` | packages/db/src/evaluation-repositories.ts:271-303 | a new draft's hash differs from its content's if and only if it was written with an empty description |
| `DatasetLaws.UpdateLeavesStaleExactlyWhen` | packages/db/src/evaluation-repositories.ts:305-359 | a draft update leaves such a difference if and only if it writes an empty description |
| `DatasetLaws.StaleExactlyWhen` | packages/db/src/evaluation-repositories.ts:271-472 | in every reachable state a version's stored hash differs from its content's if and only if the last call that stored a hash for it wrote an empty description |
| `DatasetLaws.StalePassesNoAssertion` | packages/db/src/evaluation-repositories.ts:474-494 | a version with such a difference passes no hash assertion and meets no requirement |
| `DatasetLaws.ReleasedContentIsFrozen` | packages/db/src/evaluation-repositories.ts:496-512 | over every run a version that has left draft and validated keeps metadata, cases and hash and never returns to either |
| `DatasetLaws.CheckedRequirements` | packages/db/src/evaluation-repositories.ts:1691-1724 | the check succeeds if and only if every required dataset is published and passes its hash assertion |
| `DatasetLaws.PublishedRequirementsHoldForEver` | packages/db/src/evaluation-repositories.ts:1521-1551 | after a gate policy's publish its requirements are fixed and each required dataset passes its hash assertion in every later state |
| `DatasetLaws.DeprecateThenRollbackPublishes` | packages/db/src/evaluation-repositories.ts:418-435 | deprecating and rolling back publishes any version as it stands |
| `DatasetLaws.PublishedEmptyExactlyByRollback` | packages/db/src/evaluation-repositories.ts:426-435 | a version becomes published without an enabled case if and only if a rollback targets a deprecated version that has none |
| `DatasetLaws.UncheckedPolicyExactlyByRollback` | packages/db/src/evaluation-repositories.ts:1680-1689 | a gate policy becomes published with a failing requirement if and only if a rollback targets a deprecated version that has one |
| `DatasetLaws.UncheckedPolicyIsReached` | packages/db/src/evaluation-repositories.ts:1672-1689 | from empty tables three calls publish a policy that requires a dataset version which does not exist |
| `EvaluationRun.RunLifecycle` | packages/db/src/evaluation-repositories.ts:1108-1287 | under every interleaving of reads and guarded writes a terminal status is kept for ever, a cancelling run is never running or completed again, and the completion time is set exactly when the status is terminal |
| `EvaluationRun.StepFollowsEdges` | packages/db/src/evaluation-repositories.ts:1108-1287 | one step of any interleaving follows the graph of status changes and keeps the completion time set exactly on terminal statuses |
| `EvaluationRun.ReadsLeaveAnUpdate` | packages/db/src/evaluation-repositories.ts:1108-1287 | a read changes no row and leaves an update pending with the row it saw, unless that row's status answers the call |
| `EvaluationRun.CompletedAtOfNewRun` | packages/db/src/evaluation-repositories.ts:1108-1287 | for every run from a new row the completion time is set exactly when the status is terminal |
| `EvaluationRun.RequestTimeChangesExactlyWhen` | packages/db/src/evaluation-repositories.ts:1157-1190 | a recorded request time changes if and only if the step is the update of a request on a row that is not terminal, and the time it carries, seen by its read or else now, differs from the recorded one |
| `EvaluationRun.FirstTimeSurvivesExactlyWhen` | packages/db/src/evaluation-repositories.ts:1157-1190 | over every run of a new row the first recorded time survives if and only if every request that takes effect carries that time |
| `EvaluationRun.OverlappingRequestsLoseTheFirstTime` | packages/db/src/evaluation-repositories.ts:1157-1190 | a concrete run of three requests in which the second overwrites the first one's time and the third puts it back |
| `EvaluationRun.OutcomeChangesExactlyWhen` | packages/db/src/evaluation-repositories.ts:1192-1248 | a step on a run that is over changes its result if and only if it completes a completed run with another result, its error if and only if it fails a failed run with another code, its completion time only then, and nothing else |
| `EvaluationRun.FirstOutcomeSurvivesExactlyWhen` | packages/db/src/evaluation-repositories.ts:1192-1248 | over every run of a new row the first result of a completed run, or the first error of a failed one, survives if and only if every completion or failure that takes effect carries that same one |
| `EvaluationRun.CompletedResultIsReplaced` | packages/db/src/evaluation-repositories.ts:1192-1221 | from a new run: started, completed with one result, completed with another, which is then the stored one |
| `EvaluationRun.FailedErrorIsReplaced` | packages/db/src/evaluation-repositories.ts:1223-1248 | from a new run: failed with one code, failed with another, which is then the stored one |
| `EvaluationRun.RunRow.MarkRunning` | packages/db/src/evaluation-repositories.ts:1108-1141 | the start in place is the read and the guarded write together |
| `EvaluationRun.RunRow.MarkCancellationRequested` | packages/db/src/evaluation-repositories.ts:1157-1190 | the request in place is the read and the guarded write together |
| `EvaluationRun.RunRow.CompleteRun` | packages/db/src/evaluation-repositories.ts:1192-1221 | the guarded completion in place |
| `EvaluationRun.RunRow.FailRun` | packages/db/src/evaluation-repositories.ts:1223-1248 | the guarded failure in place |
| `EvaluationRun.RunRow.CancelRun` | packages/db/src/evaluation-repositories.ts:1250-1287 | the cancellation in place is the read and the guarded write together |
| `Scoring.MetricList.ScoreToolExpectations` | packages/db/src/evaluation-repositories.ts:3353-3390 | the loops push exactly the metrics of the forbidden and expected tools |
| `Scoring.MetricList.ScoreFinalAssertions` | packages/db/src/evaluation-repositories.ts:3392-3424 | the loop pushes one soft metric per final assertion |
| `Scoring.MetricList.ScoreSafety` | packages/db/src/evaluation-repositories.ts:3426-3445 | the loop pushes one hard gate per safety counter |
| `Scoring.MetricList.ScorePerformance` | packages/db/src/evaluation-repositories.ts:3447-3470 | a soft metric for each budget that has a measurement |
| `Scoring.ScoreCase` | packages/db/src/evaluation-repositories.ts:2408-2470 | metrics pushed one by one, the mean and the status are those of the specification |
| `Scoring.HardFailureExactlyWhenUnsafe` | packages/db/src/evaluation-repositories.ts:3353-3445 | a case fails hard if and only if a forbidden tool was called or a safety counter is not zero |
| `Scoring.MetricScores` | packages/db/src/evaluation-repositories.ts:3472-3489 | every metric score is in 0 to 1, so none is rejected, and all soft ones are 1 if and only if every check holds and no flexible expectation was met short of its upper bound |
| `Scoring.CaseScoreMeaning` | packages/db/src/evaluation-repositories.ts:2428-2436 | a case score is in 0 to 1, is 0 when the case is unsafe, and is 1 if and only if it is safe and all soft metrics have full marks |
| `Scoring.UnsafeNeverPasses` | packages/db/src/evaluation-repositories.ts:2430-2446 | an unsafe case never passes and reports its failed gate |
| `Scoring.ChecksMeaning` | packages/db/src/evaluation-repositories.ts:3370-3489 | every check holds if and only if status, number and arguments of expected calls, final assertions and budgets are as the case's fields want them |
| `Scoring.ArgumentNamesDiffer` | packages/db/src/evaluation-repositories.ts:3376-3390 | each way of matching arguments is reported under a name of its own |
| `Scoring.SoftFailureExactlyWhen` | packages/db/src/evaluation-repositories.ts:2408-2436 | some soft metric fails if and only if some check does not hold |
| `Scoring.CaseStatusMeaning` | packages/db/src/evaluation-repositories.ts:2436-2446 | a scored case is a system error if and only if the evidence says so, and otherwise failed if and only if it is unsafe, or without a minimum something was not as wanted, or its score is below the minimum |
| `Scoring.MetricsLoseTheShortfall` | packages/db/src/evaluation-repositories.ts:3370-3390 | when every check holds the soft metrics add up to their number less what the expectations lose by being met short of their upper bounds |
| `Scoring.FaultlessCaseFailsExactlyWhen` | packages/db/src/evaluation-repositories.ts:2428-2446 | under every minimum m a safe case in which every check holds fails if and only if that loss is greater than (1 - m) times the number of soft metrics, and passes otherwise |
| `Scoring.FaultlessCaseAtTheEnds` | packages/db/src/evaluation-repositories.ts:3370-3380 | such a case passes without a minimum, passes under every minimum when no expectation was met short, and with a minimum of 1 fails if and only if one was |
| `Scoring.OneCallOfTwoFails` | packages/db/src/evaluation-repositories.ts:3472-3489 | one tool expected once or twice and called once: every check holds, and the case fails if and only if the minimum is above three quarters |
| `Aggregation.AggregateRun` | packages/db/src/evaluation-repositories.ts:2472-2519 | the counting loop gives the specified aggregate |
| `Aggregation.CountCases` | packages/db/src/evaluation-repositories.ts:2473-2500 | the counters of the loop are the sums over all cases |
| `Aggregation.CountsAddUp` | packages/db/src/evaluation-repositories.ts:2472-2519 | passed, failed, skipped and open cases make up the total, and both rates are in 0 to 1 |
| `Aggregation.AggregateMeaning` | packages/db/src/evaluation-repositories.ts:2472-2519 | from the last result of each case: how many passed, failed or were left out, the share of the passed ones, the mean score by each case's own weight, and exactly the failed gates of counted cases |
| `Aggregation.WeightedScoreLies` | packages/db/src/evaluation-repositories.ts:2497-2512 | the weighted score lies between any bounds of the counted scores, and is 0 when nothing was counted |
| `Aggregation.RaisingScoresNeverLowers` | packages/db/src/evaluation-repositories.ts:2497-2512 | raising scores never lowers the weighted score |
| `Aggregation.AggregateForgetsOrder` | packages/db/src/evaluation-repositories.ts:2472-2519 | no number depends on the order of the cases or on anything but the last result of each, and the failed gates are the same ones |
| `Aggregation.DecideGate` | packages/db/src/evaluation-repositories.ts:3578-3600 | the reasons collected and the decision are those of the specification |
| `Aggregation.PassedExactlyWhen` | packages/db/src/evaluation-repositories.ts:3578-3600 | the gate passes if and only if both thresholds are met and no counted case failed a hard gate |
| `Aggregation.UnsafeCaseBlocksTheGate` | packages/db/src/evaluation-repositories.ts:2496-2500 | one scored case with a forbidden call or a tripped safety counter keeps the gate from passing, whatever policy and mode |
| `Aggregation.NothingCountedPassesExactlyWhen` | packages/db/src/evaluation-repositories.ts:3578-3600 | with no case counted, as with no result at all, the gate passes if and only if both minimums are 0 |
| `SystemErrors.AboveRatePassesExactlyWhen` | packages/db/src/evaluation-repositories.ts:3578-3600 | a run whose share of system errors is above the declared rate passes if and only if enough of its completed cases passed, its points reach the weighted minimum and no counted case failed a gate |
| `SystemErrors.DeclaredRateKeptExactlyWhen` | packages/contracts/src/evaluation.ts:229-245 | no run above the declared rate passes if and only if the least pass rate and the greatest system error rate add up to 1 at least |
| `SystemErrors.OneSystemErrorPasses` | packages/db/src/evaluation-repositories.ts:3578-3600 | with limits of 0 a scored run of one system error is above the declared rate and passes |
| `Comparison.Compare` | packages/db/src/evaluation-repositories.ts:2523-2596 | the loop over the candidate's results gives the specified lists, deltas and severity |
| `Comparison.ListsPartitionTheCommonCases` | packages/db/src/evaluation-repositories.ts:2556-2573 | each case common to both runs is in exactly one of newly failed, newly passed, unchanged failures and both passed, once; no other case is in any |
| `Comparison.ComparisonMeaning` | packages/db/src/evaluation-repositories.ts:2523-2596 | runs are compared if and only if on one dataset version and hash; each list holds the cases by how their last results ended, the deltas are candidate less baseline, and the severity is critical for a failed gate, high from five newly failed cases on, medium from one on |
| `Comparison.SwapMirrors` | packages/db/src/evaluation-repositories.ts:2523-2596 | swapping the runs swaps newly failed and newly passed, keeps the unchanged failures and negates both deltas |
| `Comparison.SelfComparisonIsCriticalExactlyWhen` | packages/db/src/evaluation-repositories.ts:2574-2592 | a run against itself has nothing new and no delta, and is critical if and only if one of its results failed a hard gate |
| `Gate.DecisionTable.Create` | packages/db/src/evaluation-repositories.ts:1904-1956 | the insert in place stores the decision or returns the one already there for the exact candidate and policy |
| `Gate.EveryDecisionWasTaken` | packages/db/src/evaluation-repositories.ts:2794-2835 | every decision stored after a run of calls was taken by one of them from the cases and results stored then |
| `Gate.PublishNeedsAPassedEvaluation` | packages/db/src/evaluation-repositories.ts:2837-2902 | in required mode a publish without an override succeeds only if an earlier call evaluated this exact candidate, met the thresholds the policy has now, failed no hard gate, and its run is completed |
| `Gate.RequiredPublishAllowedExactlyWhen` | packages/db/src/evaluation-repositories.ts:2848-2902 | in required mode a publish is allowed if and only if the decision about the exact candidate exists, is fresh, and passed or has an unexpired override for that decision and resource hash that the policy allows |
| `Gate.OnlyRequiredBlocks` | packages/db/src/evaluation-repositories.ts:2848-2940 | advisory mode answers what required mode allows, and lets through what it refuses with the refusal as a warning, the decision found and no override; with the gate disabled everything passes without either |
| `Gate.RequiredRefusal` | packages/db/src/evaluation-repositories.ts:2848-2902 | what required mode refuses with: no policy, no decision, a stale one, or one that did not pass |
| `Gate.FreshnessMeaning` | packages/db/src/evaluation-repositories.ts:2063-2140 | each reason against a decision, exactly when it is given: another resource hash, bundle or policy hash, a policy gone or changed, a run gone or not completed, and of the first run its plan, its required hash and its snapshot |
| `Gate.OtherCallsStore` | packages/db/src/evaluation-repositories.ts:930-1079 | runs, plans and snapshots are stored once, a run changes in its status alone, results are those stored last, overrides are added |
| `Gate.EnabledCasesMeaning` | packages/db/src/evaluation-repositories.ts:2794-2835 | a decision counts exactly the enabled cases of the run's dataset version, each as often as it is stored |
| `Gate.ActiveOverrideMeaning` | packages/db/src/evaluation-repositories.ts:2051-2061 | the override found is the last one made for the decision and its resource hash that is unexpired; none is found only when every such override has expired |
| `Gate.DecisionStands` | packages/db/src/evaluation-repositories.ts:1926-1956 | over every run the first decision about an exact candidate and policy is never replaced |
| `Gate.FailedCandidateStaysBlocked` | packages/db/src/evaluation-repositories.ts:2837-2902 | over every run a candidate whose first decision did not pass is published under that policy hash only with an override |
| `Gate.UnsafeRunDoesNotPass` | packages/db/src/evaluation-repositories.ts:2794-2835 | a decision taken with one unsafe enabled case is not a pass |
| `GateDatasets.PublishAfterDecisionExactlyWhen` | packages/db/src/evaluation-repositories.ts:2794-2902 | after the first decision about a candidate a publish is allowed without an override if and only if the run meets the thresholds, is completed, its plan is for the same candidate and dataset hash, and the version it is on has the hash the policy requires of it, if the policy names it |
| `GateDatasets.AllowedPublishOnRequiredExactlyWhen` | packages/db/src/evaluation-repositories.ts:2098-2125 | over every run of calls, the evaluation behind a publish allowed without an override is of one run, still on the dataset it was decided on, and that is a required one with the required hash if and only if the policy names it |
| `GateDatasets.AllowedOnAnotherDataset` | packages/db/src/evaluation-repositories.ts:2837-2902 | for all limits, calls from the empty system publish one policy, for the candidate's type of resource, that requires one version, and allow a publish without an override although no run is on that version |
| `GateDatasets.AllowedOnNothingExactlyWhen` | packages/db/src/evaluation-repositories.ts:2794-2902 | some run of calls allows a publish without an override on a decision for which no case was counted if and only if both minimums of the policy are 0 |

## Left out

- SQL text, connection pools, row mappers, schema parsing beyond the bounds used here, and the `apps` around the repositories.
- `localeCompare`: a parameter in `CanonicalJson` and `FlowPlan`. Case ids are ordered by code unit: the code lists cases by id in the database's order and sorts that list stably, so distinct ids are always in one fixed order, and which order it is changes no equality of hashes.
- Rounding: scores, weights and rates are exact reals, while the code computes them as doubles. Bounds, thresholds and independence of order hold here without rounding.
- JavaScript's order of integer-like object keys, `JSON.stringify` text, URI encoding and the inside of SHA-256.
- Interleavings of registry, publish, rollback and dataset calls, which are single steps here although the code reads and writes separately.
- Audit events, release history rows, evidence collection and most timestamps.
- The validation services for policies, the checks on wildcards and secrets, and the model gateway profiles.
- The trigger on case deletion in runs of calls: `DatasetTables.DeleteCase` and the laws about runs follow the repository method, `DeleteUnderTrigger` is the call with the trigger.
- `clone` of a gate policy, which is `createDraft` with the source's content.
- The lookup of the latest published gate policy: the results of `Gate` hold for whichever policy it returns.
- The text of regular expression and JSON schema assertions: the outcome of each final assertion is an input of `Scoring`.
- The role and expiry checks made when an override is created.
- Freshness with a current dataset hash given, which the publish check never passes.
- The metric summary, actual and expected values, and reason texts of results and decisions.
- Decoding of agent execution plans inside a flow plan: an agent record says whether its own plan can be created; plan ids, references and the plan hash are not modelled.
- Numerals other than plain digits before the first dot of a tool version: they end in an error either way, with another message.
- Pagination, and more than one conversation at a time.
- Vector search, `packages/i18n`, `packages/config`, `devtools` and the identity repositories: lookups and simple revision updates.
