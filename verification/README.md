# CLI Bridge: a verified model

CLI Bridge relays prompts between a command-line agent and ChatGPT Web and runs plans that a human gates step by step. This
project models the parts of it where mistakes hide, in Dafny 4.11, and proves what the code around them relies on.
`dfyconfig.toml` lists its files.

The model follows the code, branch by branch. What the code does by changing things step by step (stores, the parser's tier
passes, the orchestrator, the poller, the inbox, the output capture, the builders' loops) is a class or a method with loops,
each proved against a function of its inputs or of the state before; the theorems are about those functions and about runs
of them. Next to the functions stand lemmas, named `...Exactly`, that say of their results what the source promises without
following their branches. What the code computes by expressions and recursion (`stableJson`, the hashes, the screening walk) is a function.

**Canonical encoding and the chain of authority.** `Texts`, `KeyedSort`, `Json`, `CanonicalJson`, `JsonReader`, `Bindings`,
`HashedTexts`, `ReasoningArtifacts`, `EndpointRegistry`, `AutomationBindings`, `ExecutionProposals`, `ExecutionDispatcher`,
`AuthorityChain`, `SingleUse`. Strings are sequences of UTF-16 code units, objects keep their enumeration order, and
`stableJson` is proved uniquely decodable, and what it prints is read back by a reader written after RFC 8259 that does not
know the printer. The digest is a parameter about which nothing is assumed: each theorem about hashes concludes
"equal, or here are two different texts with the same digest", so none of them rests on an injective 256-bit function, which
does not exist. From there: the binding store's invariant, locked bindings, snapshots that never go stale, and over whole
runs of the system no authority drift between draft, confirmation and dispatch, what an executor is given is what the human
was shown, and when one confirmation is used only once.

**File conflicts.** `FileConflicts`: the backward scan with its early exit, against the quadratic definition. They do not
always agree; the exact condition is proved for all inputs.

**Goal plans.** `Plans`, `PlanExtraction`, `GoalPlanParser`, `GoalStore`, `GoalOrchestrator`, `GoalRuns`: the brace scan, the
tier repair with its log, the gated step machine, and runs with any number of orchestrators.

**Relay protocol.** `RelaySession`, `OutboundPoller`, `Extraction`: ticks cut at every `await` and interleaved with panel
returns, stops and restarts; the session cell; waiting for a stable answer; the marked section.

**Queue, capture and derived views.** `WorkBuddyInbox`, `OutputCapture`, `CommandRunner`, `VerificationView`.

`Wrappers` and `OrderedMaps` hold the optional values, the results of calls that throw, and the insertion-ordered map.

## Where the code and its promises differ

The model does what the code does; these are the places where that is not what its comments or names say.

- `stableJson` is not injective on all values: `[undefined]` prints as `[]`, and `NaN` as `null`
  (`CanonicalJson.CollapsesCollide`). `CanonicalJson.PrintUniquelyDecodable` says these two collapses are all.
- `detectFileConflicts` says that parent directories always precede their children in sorted order, which is true, and stops
  its scan on the strength of it, which is not enough: a path that continues the directory's name with a character below
  the slash stops the scan early (`FileConflicts.ShadowedOverlapMissed`, `FileConflicts.VerdictRightExactly`).
- `extractPlanCandidate` says it looks for a block with `goalId` and `steps`; it tests `goalId` only
  (`GoalPlanParser.StepsNotNeeded`). Its scan counts braces inside strings too (`PlanExtraction.BraceInStringHidesPlan`), and
  unbalanced text before the plan hides the plan (`PlanExtraction.UnbalancedTextHidesPlan`).
  `PlanExtraction.EarliestBlockReturned` says exactly which block is returned, and `PlanExtraction.PlanFoundExactly` exactly
  when the only plan in a text is found.
- In `parseGoalPlanResult` the last branch of the second tier pass, which would downgrade a step that does not change state,
  cannot be reached: the first pass has already done so (`GoalPlanParser.EnforceTiers`). The model's `isStateMutating` flag is
  passed on as written; the goal store works it out again from the kind.
- `stop()` on a poller does not call back a tick in flight, so clearing the pairing and making it again can lose a session
  (`OutboundPoller.RestartedPollerLosesSession`). `OutboundPoller.RestartSafeExactly` says exactly which restarts are safe.
- ADR-0024 (docs/planning) promises that a confirmation is single-use and that resuming does not replay a dispatch that may
  have happened. Pausing a dispatching proposal, as the dispatcher itself does when the command fails, and resuming it gives
  back a confirmed proposal that is dispatched again (`SingleUse.EveryDispatchCanRepeat`). That pause is the exact condition:
  with it a second dispatch is possible, and without it none is (`SingleUse.UsedOnceExactly`).
- A task is enqueued with the server's own working directory (apps/local-server/src/routes/bridge-api.ts:4138), whatever project
  the human confirmed with the proposal; `AuthorityChain.SentAsShown` says exactly what is in it.
- Restoring a snapshot with `hydrateBinding` replaces even a locked binding, and nothing else does
  (`AutomationBindings.LockedMovesExactly`).

## Model

| member | source | states |
|---|---|---|
| CanonicalJson.PrintUniquelyDecodable | apps/local-server/src/reasoning/reasoning-artifact.ts:48-57 | any two values print the same if and only if they are equal up to object key order, at every depth, after exactly two collapses: a non-finite number to `null`, `[undefined]` to `[]` |
| CanonicalJson.PlainPrintUniquelyDecodable | apps/local-server/src/reasoning/reasoning-artifact.ts:48-57 | on values with neither collapse, `stableJson` tells values apart exactly up to key order |
| CanonicalJson.PrintDecodable | apps/local-server/src/reasoning/reasoning-artifact.ts:48-57 | the printed text and the canonical tree (keys sorted everywhere) determine each other |
| CanonicalJson.CanonSame | apps/local-server/src/reasoning/reasoning-artifact.ts:52-55 | sorting the keys identifies exactly the values that are equal up to key order, for the independent recursive definition of that equality |
| CanonicalJson.ValuePrefix | apps/local-server/src/reasoning/reasoning-artifact.ts:48-57 | the canonical text is uniquely decodable in context: if two trees followed by a closing character give the same text, the trees and the rests are the same |
| CanonicalJson.QuotePrefix | apps/local-server/src/reasoning/reasoning-artifact.ts:54-56 | a quoted string ends where it says: no string's quotation is a proper beginning of another's; which escape stands for which character is the subject of `JsonReader.ReadsEscaped` |
| JsonReader.PrintReadsBack | apps/local-server/src/reasoning/reasoning-artifact.ts:48-57 | what is printed reads back, by a reader written after RFC 8259 that does not know the printer, with nothing left over, as the canonical tree: equal to the printed value up to key order after the two collapses, every object's keys in code-unit order |
| JsonReader.ReadsEscaped | apps/local-server/src/reasoning/reasoning-artifact.ts:54-56 | reading an escaped string up to its closing quotation mark gives the string: short forms for quotation mark, backslash, backspace, tab, line feed, form feed and carriage return, four hexadecimal digits for the other control characters and lone surrogates, and no needless escape |
| JsonReader.ValueOfDigits | apps/local-server/src/reasoning/reasoning-artifact.ts:56 | the decimal digits of a number have its value |
| CanonicalJson.PrintIsEncCanon | apps/local-server/src/reasoning/reasoning-artifact.ts:48-57 | the interleaved sort-and-print computes the plain printing of the canonical tree |
| CanonicalJson.CollapsesCollide | apps/local-server/src/reasoning/reasoning-artifact.ts:48-57 | the two concrete collisions, `[undefined]` with `[]` and `NaN` with `null` |
| KeyedSort.SortSorted | apps/local-server/src/reasoning/reasoning-artifact.ts:54 | the stable sort of keyed elements puts the keys in code-unit order |
| KeyedSort.SortStable | packages/shared/src/schemas.ts:1305 | the sort is stable: elements with the same key stay in their order |
| Texts.LessExactly | apps/local-server/src/reasoning/reasoning-artifact.ts:54 | the comparison behind the sort is code-unit order: equal up to a place where the first is smaller or ends |
| KeyedSort.SortedUnique | apps/local-server/src/reasoning/reasoning-artifact.ts:54 | a sorted arrangement of distinct keys is unique |
| Bindings.AuthorityTextInjective | apps/local-server/src/storage/automation-binding-store.ts:82-98 | all twelve authority fields are recoverable from the text that is hashed, an absent `parentPlanId` included |
| HashedTexts.AuthorityTextReads | apps/local-server/src/storage/automation-binding-store.ts:82-98 | the text behind a binding hash reads as an object with exactly twelve members, each authority field under its own name |
| Bindings.SameHashSameAuthority | apps/local-server/src/storage/automation-binding-store.ts:82-98 | binding hashes are equal if and only if the authority fields are, or the two hashed texts are a collision of the digest, of which nothing is assumed |
| ReasoningArtifacts.ForbiddenFound | apps/local-server/src/reasoning/reasoning-artifact.ts:63-82 | the walk reports a forbidden key that does occur, and reports one whenever any occurs at any depth |
| ReasoningArtifacts.FirstOfWalk | apps/local-server/src/reasoning/reasoning-artifact.ts:63-82 | the key it names is the first forbidden one of the depth-first walk |
| ReasoningArtifacts.NormalizesExactly | apps/local-server/src/reasoning/reasoning-artifact.ts:84-150 | an artifact is accepted if and only if the binding is locked, plan and endpoint fit it, kind, summary and size are in bounds, no forbidden key occurs anywhere, and the schema assertion passes; and what its fields then are |
| ReasoningArtifacts.DerivedId | apps/local-server/src/reasoning/reasoning-artifact.ts:131-138 | a derived id is the digest of the six parts in this order with a bar between each two |
| ReasoningArtifacts.ScreeningFollowsText | apps/local-server/src/reasoning/reasoning-artifact.ts:117-127 | two contents that print alike are both refused or both let through, so screening the value is screening what is hashed |
| ReasoningArtifacts.ArtifactIdIdentifies | apps/local-server/src/reasoning/reasoning-artifact.ts:104-150 | two accepted artifacts with the same derived id have the same authority, endpoint, kind and content up to key order and collapses, or a collision is at hand, although the six parts are joined by an unescaped bar |
| EndpointRegistry.RegistryRunKeeps | apps/local-server/src/endpoints/endpoint-registry.ts:44-140 | over any run no endpoint is dropped, identity, label, transport and capabilities never change, and offline is final |
| EndpointRegistry.InMemoryEndpointRegistry.Register | apps/local-server/src/endpoints/endpoint-registry.ts:44-63 | refused without id or label, or for a known id, and then nothing changes; otherwise the endpoint is stored, online and seen now, after all others |
| EndpointRegistry.InMemoryEndpointRegistry.Heartbeat | apps/local-server/src/endpoints/endpoint-registry.ts:111-123 | unknown and offline endpoints are refused, each with its own answer, and nothing changes; any other is online and seen now |
| EndpointRegistry.InMemoryEndpointRegistry.MarkOffline | apps/local-server/src/endpoints/endpoint-registry.ts:128-140 | unknown and offline endpoints are refused, each with its own answer; any other is offline and seen now |
| AutomationBindings.ReachableStoreValid | apps/local-server/src/storage/automation-binding-store.ts:116-225 | in every reachable store each plan id maps to a schema-valid binding of that plan whose hash is the hash of its fields |
| AutomationBindings.LockedStepKept | apps/local-server/src/storage/automation-binding-store.ts:116-199 | one call of create, update, lock, derive or commit leaves a locked binding exactly as it was |
| AutomationBindings.LockedMovesExactly | apps/local-server/src/storage/automation-binding-store.ts:116-225 | a call moves a locked binding if and only if it restores an accepted snapshot of the same plan that differs from it |
| AutomationBindings.LockedForever | apps/local-server/src/storage/automation-binding-store.ts:116-225 | a locked binding stays as it is throughout a run if and only if the run restores no other accepted snapshot of its plan |
| AutomationBindings.StepFreshExactly | apps/local-server/src/storage/automation-binding-store.ts:60-69 | a registry or store call leaves every stored and previewed snapshot fresh if and only if a binding it commits or restores is fresh as it comes in |
| AutomationBindings.SnapshotsNeverStale | apps/local-server/src/storage/automation-binding-store.ts:60-69 | over any interleaving of registry and store calls, outside commits and restored snapshots included: every stored or previewed endpoint snapshot is what the registry says throughout, and the executor may execute, if and only if every committed or restored binding is fresh as it comes in |
| AutomationBindings.InternalRunFresh | apps/local-server/src/storage/automation-binding-store.ts:162-199 | a preview stays fresh until it is committed, so a run that brings in no binding from outside is fresh throughout |
| AutomationBindings.FreshFromStart | apps/local-server/src/storage/automation-binding-store.ts:106-225 | hash integrity, and the same two results on fresh snapshots, for every run from the empty registry and store |
| AutomationBindings.ExportHydrateRoundTrip | apps/local-server/src/storage/automation-binding-store.ts:206-225 | exporting a valid store and hydrating an empty one rebuilds the same bindings in the same order |
| AutomationBindings.BuiltExactly | apps/local-server/src/storage/automation-binding-store.ts:227-311 | a binding is built if and only if the seven texts are not blank, the tiers are known, the project exists, the limits are whole numbers from 1 to 50 and 1 to 20, the deadline is a date, and both endpoints are registered with the capability of their role; the closing schema assertion never fires |
| AutomationBindings.BuiltFields | apps/local-server/src/storage/automation-binding-store.ts:249-273 | what a built binding is, field by field: the input's fields, both endpoints as they are registered, both times now, not locked, and the hash of its own authority |
| AutomationBindings.UpdateExactly | apps/local-server/src/storage/automation-binding-store.ts:125-143 | an update keeps goal, plan and parent, takes what the caller gives and keeps the rest; a locked binding refuses it |
| AutomationBindings.CreateExactly | apps/local-server/src/storage/automation-binding-store.ts:116-123 | creating for a plan that has a binding replaces everything but its goal and parent, unless it is locked |
| AutomationBindings.PreviewExactly | apps/local-server/src/storage/automation-binding-store.ts:166-186 | a derived binding is the parent's for the goal and plan given, with what the caller gives, and names its parent |
| AutomationBindings.InMemoryAutomationBindingStore.ValidateInput | apps/local-server/src/storage/automation-binding-store.ts:275-311 | the loop over the required texts and the checks after it report the first failure in the source's order |
| AutomationBindings.InMemoryAutomationBindingStore.BuildBinding | apps/local-server/src/storage/automation-binding-store.ts:227-273 | the built binding or the first reason it throws |
| AutomationBindings.InMemoryAutomationBindingStore.CreateBinding | apps/local-server/src/storage/automation-binding-store.ts:116-123 | an existing plan is updated, a new one built; store invariant, result and whole new store |
| AutomationBindings.InMemoryAutomationBindingStore.UpdateBinding | apps/local-server/src/storage/automation-binding-store.ts:125-143 | refuses unknown and locked plans; identity fields come from the stored binding; store invariant, result and whole new store |
| AutomationBindings.InMemoryAutomationBindingStore.LockBinding | apps/local-server/src/storage/automation-binding-store.ts:145-160 | locking a stored binding never throws and changes nothing but its lock and update times, and a locked one not at all; unknown plans return nothing |
| AutomationBindings.InMemoryAutomationBindingStore.DeriveBinding | apps/local-server/src/storage/automation-binding-store.ts:162-186 | preview followed by commit; store invariant, result and whole new store |
| AutomationBindings.InMemoryAutomationBindingStore.CommitBinding | apps/local-server/src/storage/automation-binding-store.ts:188-199 | accepted if and only if schema and hash are right and the plan's binding is not locked; stored as it is, and nothing changes otherwise |
| AutomationBindings.InMemoryAutomationBindingStore.HydrateBinding | apps/local-server/src/storage/automation-binding-store.ts:214-225 | accepts exactly the schema-valid bindings whose hash matches, locked or not in the store |
| ExecutionProposals.ContentHashPins | apps/local-server/src/storage/execution-proposal-store.ts:19-45 | content hashes are equal if and only if artifact, preview, command, arguments and input are, or a collision is at hand |
| HashedTexts.ContentTextReads | apps/local-server/src/storage/execution-proposal-store.ts:28-37 | the text behind a content hash reads as an object with exactly six members: artifact id and hash, preview, command, arguments in order, and input, each under its own name |
| ExecutionProposals.InMemoryExecutionProposalStore.CreateDraft | apps/local-server/src/storage/execution-proposal-store.ts:73-130 | drafted if and only if the command is permitted, artifact and binding are for the plan and goal, and the step's endpoint and tier are the binding's; the draft holds the caller's content and the binding's hash, endpoint, profile and project; otherwise the first failure and an untouched store |
| ExecutionProposals.InMemoryExecutionProposalStore.Confirm | apps/local-server/src/storage/execution-proposal-store.ts:143-176 | succeeds if and only if the stored proposal awaits confirmation, has not expired, and all eight fields shown to the human equal the stored ones; an awaiting proposal met late becomes timed out and stays unconfirmed; any other failure changes nothing |
| ExecutionProposals.InMemoryExecutionProposalStore.Apply | apps/local-server/src/storage/execution-proposal-store.ts:229-290 | a control call changes only that proposal, and throws exactly when `ControlMoves` permits no move |
| ExecutionProposals.ControlMoves | apps/local-server/src/storage/execution-proposal-store.ts:132-290 | from which statuses each control call moves a proposal and to which; it changes nothing but the status; only resuming a proposal confirmed before leads back to confirmed, and only a confirmed one becomes dispatching |
| ExecutionProposals.InMemoryExecutionProposalStore.Edit | apps/local-server/src/storage/execution-proposal-store.ts:178-227 | refused exactly for returned and dispatching proposals; otherwise the old proposal is cancelled and an unconfirmed revision stored, with the new preview, input and artifact, the old command, arguments, ids and expiry, and the hash of its own content |
| ExecutionDispatcher.ClearedExactly | apps/local-server/src/execution/execution-dispatcher.ts:55-158 | a proposal is dispatched if and only if it is confirmed, the plan is neither paused nor cancelled, the three binding ids, both endpoint ids, the step target and the expected invocation all agree |
| ExecutionDispatcher.RefusedExactly | apps/local-server/src/execution/execution-dispatcher.ts:60-128 | which refusals leave the proposal as it was, which pause and which cancel it; and that a cleared one goes to the inbox exactly for a WorkBuddy endpoint |
| ExecutionDispatcher.DispatchExecutionProposal | apps/local-server/src/execution/execution-dispatcher.ts:55-158 | the decision, the new proposal store and the adapter's inbox, on every path; an enqueued task is pending and holds the proposal's id and input as its prompt, the binding's endpoint, plan, goal and hash, and the server's working directory and time limit; a launched command is the proposal's own command, arguments and input, one of the two review invocations; a refusal enqueues and launches nothing |
| ExecutionDispatcher.CompleteCommand | apps/local-server/src/execution/execution-dispatcher.ts:169-182 | a finished command returns or pauses the proposal; exactly when the closing call throws |
| AuthorityChain.EveryRunKeepsChain | apps/local-server/src/execution/execution-dispatcher.ts:55-183 | every run of binding, drafting, confirming, editing, control and dispatch calls keeps each proposal tied to the authority it was drafted under, each confirmation at or before the expiry, and each dispatch to a confirmation and to the proposal's own content |
| AuthorityChain.NoAuthorityDrift | apps/local-server/src/execution/execution-dispatcher.ts:70-87 | in every run from the start, at every dispatch all twelve authority fields of the binding in force equal those the proposal was drafted under, or their texts are a hash collision; the dispatcher itself compares one hash and three ids |
| AuthorityChain.DispatchedAsConfirmed | apps/local-server/src/storage/execution-proposal-store.ts:143-176 | in every run from the start, what is dispatched was confirmed, no later than it expired, with the same ids, profile, project and content hash, and that hash pins artifact, preview, command, arguments and input, or a collision is at hand; how often one confirmation is used is the subject of the next rows |
| AuthorityChain.SentAsShown | apps/local-server/src/execution/execution-dispatcher.ts:117-158 | in every run from the start, the prompt enqueued, or the command, arguments and input run, are those of the content confirmed under the content hash, or a collision is at hand; a task goes to the endpoint, plan and goal of the proposal, a command is one of the two review invocations |
| SingleUse.UsedOnceExactly | apps/local-server/src/storage/execution-proposal-store.ts:229-290 | over whole runs from any world the chain allows in which the proposal has been dispatched at most once: at no point can it be dispatched a second time if and only if the run never pauses it while it is dispatching |
| SingleUse.UsedOnceFromStart | apps/local-server/src/storage/execution-proposal-store.ts:229-290 | the same for every run from the start |
| SingleUse.PauseAllowsAgain | apps/local-server/src/storage/execution-proposal-store.ts:260-279 | after any pause of a dispatching proposal, whatever has become of its binding since the dispatch, it can be dispatched again without another pause or confirmation |
| SingleUse.StepTraced | apps/local-server/src/storage/execution-proposal-store.ts:229-290 | every call keeps a dispatching proposal on record as it was dispatched, next to the binding it was dispatched under |
| SingleUse.DispatchedAtMostOnce | apps/local-server/src/storage/execution-proposal-store.ts:229-290 | in every run from the start in which a proposal is never paused while it is dispatching, it is dispatched at most once; the other direction is in the rows before |
| SingleUse.PauseForgetsDispatch | apps/local-server/src/storage/execution-proposal-store.ts:260-279 | pausing and resuming a dispatching proposal gives back the confirmed proposal it was, mark for mark |
| SingleUse.EveryDispatchCanRepeat | apps/local-server/src/storage/execution-proposal-store.ts:260-279 | in every world the chain allows, every dispatch can be paused, resumed and made again by the same call under the same confirmation |
| SingleUse.ConfirmationUsedTwice | apps/local-server/src/storage/execution-proposal-store.ts:260-279 | whatever the digest, a run from the start with a dispatch, and its continuation with the same dispatch twice and a single confirmation |
| FileConflicts.DetectFileConflicts | packages/shared/src/schemas.ts:1294-1331 | the loops over artifacts, sorted entries and the backward scan with its early break report exactly the specified conflicts in order |
| FileConflicts.CleanExactly | packages/shared/src/schemas.ts:1294-1331 | for all inputs: clean if and only if no path is proposed twice and every path that has another inside it is shadowed (some path continues it with a character below the slash and has a slash later) |
| FileConflicts.CleanOverFiles | packages/shared/src/schemas.ts:1298-1331 | the same over the names as proposed: two positions name the same file when the names are equal once each that lacks it has one leading slash |
| FileConflicts.ReportedExactly | packages/shared/src/schemas.ts:1307-1328 | exactly which conflicts are reported: a repeated path against its first entry, and otherwise every entry whose directory the path is in and that the scan back to it meets |
| FileConflicts.CleanIsNoOverlap | packages/shared/src/schemas.ts:1294-1331 | without shadowed paths, clean is the quadratic definition: no two entries equal, none inside another |
| FileConflicts.VerdictRightExactly | packages/shared/src/schemas.ts:1320-1324 | the exact condition under which the verdict agrees with the quadratic definition, for all inputs |
| FileConflicts.ShadowedOverlapMissed | packages/shared/src/schemas.ts:1320-1323 | `/a`, `/a-x/y`, `/a/b` come out clean although `/a/b` lies inside `/a` |
| FileConflicts.ReportsAreOverlaps | packages/shared/src/schemas.ts:1313-1327 | every reported conflict names two different entries whose paths are equal or one inside the other, with the label that says which |
| FileConflicts.OrderIrrelevant | packages/shared/src/schemas.ts:1298-1330 | verdict, number of conflicts and labels depend only on which paths are proposed |
| FileConflicts.PermutedArtifacts | packages/shared/src/schemas.ts:1298-1330 | permuting the artifacts changes neither verdict nor labels |
| PlanExtraction.ExtractPlanCandidate | apps/local-server/src/goal/goal-plan-parser.ts:151-196 | returns the whole trimmed text when that is accepted, else the first accepted top-level block, else nothing; for any text |
| PlanExtraction.BlockBalanced | apps/local-server/src/goal/goal-plan-parser.ts:169-195 | a returned block is brace-balanced and has positive depth at every interior point |
| PlanExtraction.BlockUnique | apps/local-server/src/goal/goal-plan-parser.ts:172-192 | blocks are told apart by where they end |
| PlanExtraction.EarliestBlockReturned | apps/local-server/src/goal/goal-plan-parser.ts:166-195 | an accepted top-level block is the one returned if and only if no accepted block ends before it; otherwise an earlier one is returned |
| PlanExtraction.PlanFoundExactly | apps/local-server/src/goal/goal-plan-parser.ts:151-196 | a plan in any text in which no other slice between braces is accepted (white space beside it does not matter) is found if and only if it is the whole text or a top-level block of it, every brace counted |
| PlanExtraction.UnbalancedTextHidesPlan | apps/local-server/src/goal/goal-plan-parser.ts:172-192 | text before the plan whose braces do not balance, such as one stray closing brace, keeps the plan from being found |
| PlanExtraction.BalancedTooSoonHidesPlan | apps/local-server/src/goal/goal-plan-parser.ts:172-192 | a plan whose braces, those inside its strings included, balance before its end is not found with any text around it |
| PlanExtraction.BraceInStringHidesPlan | apps/local-server/src/goal/goal-plan-parser.ts:172-192 | a concrete plan with a closing brace in a string is not found with any text before or after it |
| GoalPlanParser.NormalizeCallerPermittedTiers | apps/local-server/src/goal/goal-plan-parser.ts:119-141 | validated and de-duplicated in first-occurrence order, or the first reason for refusal |
| GoalPlanParser.TiersExactly | apps/local-server/src/goal/goal-plan-parser.ts:119-141 | tiers are taken if and only if all are known and `patch-proposal` is among them; each is kept once, the first stays first |
| GoalPlanParser.EnforceTiers | apps/local-server/src/goal/goal-plan-parser.ts:341-434 | the two loops over the step array: refusal reason, overwritten tiers and correction log, in both modes |
| GoalPlanParser.TierFailureExactly | apps/local-server/src/goal/goal-plan-parser.ts:341-434 | which step is refused and why: in strict mode the first whose kind and tier do not fit, else the first mutating one that the caller does not permit |
| GoalPlanParser.LogSays | apps/local-server/src/goal/goal-plan-parser.ts:356-394 | the log names exactly the steps whose kind and tier do not fit, once each and in order, with the tier written and the tier given |
| GoalPlanParser.UndoRestores | apps/local-server/src/goal/goal-plan-parser.ts:341-395 | undoing the correction log, last entry first, gives back the tiers the model wrote |
| GoalPlanParser.StrictIsDowngradeWithoutLog | apps/local-server/src/goal/goal-plan-parser.ts:341-434 | strict mode accepts exactly what downgrade mode accepts with an empty log, and then changes nothing |
| GoalPlanParser.PassesIdempotent | apps/local-server/src/goal/goal-plan-parser.ts:341-434 | the output of the passes passes again in both modes, unchanged and with nothing logged |
| GoalPlanParser.ParseGoalPlanResult | apps/local-server/src/goal/goal-plan-parser.ts:211-460 | extraction, the forbidden-field loop, the step ceiling, the tier passes and schema validation, in the source's order; a plan comes out if and only if the candidate is acceptable, never with a forbidden field, and with the goal id right the answer names a field exactly when it is the first of the list that is there |
| GoalPlanParser.ParsedExactly | apps/local-server/src/goal/goal-plan-parser.ts:231-460 | an object is parsed if and only if its goal id is right, it has none of the six forbidden fields, it is within the ceiling, the caller's tiers are valid, and every step's kind and tier are known, fit each other as the mode demands and are permitted |
| GoalPlanParser.FailsExactly | apps/local-server/src/goal/goal-plan-parser.ts:239-275 | when each of the first three refusals is the one given |
| GoalPlanParser.ParsedPlanFields | apps/local-server/src/goal/goal-plan-parser.ts:249-300 | what a parsed plan says, field by field, of what was parsed: ids, times, defaults, and the corrected tiers |
| GoalPlanParser.ParsedPlanSound | apps/local-server/src/goal/goal-plan-parser.ts:211-460 | a parsed plan comes of an object without any forbidden field, is within the step ceiling, for the requested goal, has workspace-write exactly on mutating kinds and every tier permitted by the caller, and undoing its log gives the steps as written |
| GoalPlanParser.ReparseChangesNothing | apps/local-server/src/goal/goal-plan-parser.ts:211-460 | parsing the output again, in either mode, gives the same plan and an empty log |
| GoalPlanParser.PrintedPlanReparses | apps/local-server/src/goal/goal-plan-parser.ts:211-460 | the whole parser, extraction and forbidden-field loop included, on any text that reads back as a parsed plan with all its fields: it returns that plan and an empty log |
| GoalPlanParser.StepsNotNeeded | apps/local-server/src/goal/goal-plan-parser.ts:151-196 | a block with nothing but the goal's id is accepted, and when no accepted block ends before it the parser returns a plan without steps, whatever plan follows in the text |
| GoalStore.InMemoryGoalStore.AttachPlan | apps/local-server/src/storage/goal-store.ts:110-147 | only a draft goal takes a plan, and only a valid one; the steps are new and pending, their mutating flags worked out from their kinds; the goal is planned; whole new state |
| GoalStore.InMemoryGoalStore.DerivePlan | apps/local-server/src/storage/goal-store.ts:165-206 | fresh pending steps from a parent plan of the same goal; whole new state |
| GoalStore.InMemoryGoalStore.ApprovePlan | apps/local-server/src/storage/goal-store.ts:149-163 | happens exactly for a plan awaiting approval; whole new state |
| GoalStore.InMemoryGoalStore.TransitionStep | apps/local-server/src/storage/goal-store.ts:218-405 | the move on the first step with the id: whole new state and result; `TransitionExactly` says when it happens and what it does |
| GoalStore.TransitionExactly | apps/local-server/src/storage/goal-store.ts:218-405 | from which statuses each move is legal and what it does to the step, and to nothing else; the plan is done with its last step and executing otherwise; the goal is done with its plan; a failed step stays failed |
| GoalStore.LeastRunnable | apps/local-server/src/storage/goal-store.ts:208-216 | the runnable step with the least index, the earliest of equals, or none when none is runnable |
| GoalOrchestrator.Orchestrator.AdvanceOnce | apps/local-server/src/goal/goal-orchestrator.ts:153-280 | result, new store and run counter of one advance, on every path |
| GoalOrchestrator.AdvanceExactly | apps/local-server/src/goal/goal-orchestrator.ts:219-280 | with a step to run: the ceiling, the plan's tiers and the gate decide, in that order, and otherwise that step is run to the end or to the failure asked for and counted |
| GoalOrchestrator.StoppedExactly | apps/local-server/src/goal/goal-orchestrator.ts:155-186 | without a ready goal nothing happens and nothing is counted, and when each reason is given |
| GoalOrchestrator.FailedStops | apps/local-server/src/goal/goal-orchestrator.ts:188-199 | a failed step stops everything: the first is reported again and nothing runs |
| GoalOrchestrator.NothingToRun | apps/local-server/src/goal/goal-orchestrator.ts:201-218 | with no step to run: complete exactly if all are done, waiting for a gate exactly if one is blocked, else stuck; nothing changes |
| GoalOrchestrator.Orchestrator.RunAll | apps/local-server/src/goal/goal-orchestrator.ts:289-319 | the loop computes the trace of repeated advances; all results but the last are completed steps, at most the remaining ceiling plus one, and the counter never passes the ceiling |
| GoalOrchestrator.RunAllEnds | apps/local-server/src/goal/goal-orchestrator.ts:289-319 | the same for the trace, whatever the loop bound |
| GoalOrchestrator.RunAllRepeats | apps/local-server/src/goal/goal-orchestrator.ts:296-316 | a run is `advance` again and again: its results are those of as many advances, each in the store the one before left |
| GoalOrchestrator.LoopBoundNeverCutsOff | apps/local-server/src/goal/goal-orchestrator.ts:294-316 | for a ceiling of at least 1 the bound of twice the ceiling is never what ends a run |
| GoalRuns.EveryRunSound | apps/local-server/src/goal/goal-orchestrator.ts:153-280 | over every run of planning, approvals, gates and advances by any number of orchestrators: no step runs twice, a mutating step runs only after its own gate approval, only permitted tiers run, done or failed exactly when run |
| GoalRuns.RunsFromNothing | apps/local-server/src/goal/goal-orchestrator.ts:190-272 | the same spelled out for every run from an empty store |
| GoalRuns.NothingRunsAfterFailure | apps/local-server/src/goal/goal-orchestrator.ts:188-199 | once a step of a plan has failed, no step of that plan runs in any later run |
| GoalRuns.AdvanceRuns | apps/local-server/src/goal/goal-orchestrator.ts:202-280 | an advance that counts a run takes the goal's next runnable step straight to done or failed |
| GoalRuns.ParsedPlanRunsBounded | apps/local-server/src/goal/goal-orchestrator.ts:220-259 | across any number of fresh orchestrators the steps of a parsed and attached plan run at most `maxSteps` times in all |
| RelaySession.ReturnClearsOnlyItsOwn | apps/extension/src/content/active-relay-session.ts:140-163 | a completing panel return drops a fresh session only when it was sent for that session's prompt and succeeded |
| RelaySession.WindowOfHistory | apps/extension/src/content/active-relay-session.ts:103-110 | cutting to fifty after each stage is the same as cutting the whole history to fifty |
| RelaySession.ActiveRelaySession.RecordRelaySessionStage | apps/extension/src/content/active-relay-session.ts:86-113 | the new snapshot, and the evidence window is the last fifty of all stages ever recorded |
| RelaySession.ActiveRelaySession.GetActiveRelaySession | apps/extension/src/content/active-relay-session.ts:125-130 | a session is returned exactly when one not older than ten minutes is held, and is that one; an older one is dropped; no stage is recorded |
| RelaySession.ActiveRelaySession.ConsumeActiveRelaySession | apps/extension/src/content/active-relay-session.ts:132-138 | returns the fresh session, if any, and always leaves none |
| RelaySession.ActiveRelaySession.BeginExtractReturn | apps/extension/src/content/active-relay-session.ts:140-150 | the part of the panel's return before it waits for the server |
| RelaySession.ActiveRelaySession.FinishExtractReturn | apps/extension/src/content/active-relay-session.ts:151-163 | the part after: compare and clear |
| OutboundPoller.EveryInterleaving | apps/extension/src/content/outbound-poller.ts:75-233 | in every interleaving of ticks, panel returns, stops and restarts each poller has at most one tick in flight, at most one poller is live, and every tick's calls are a beginning of the protocol, possibly closed by a single `failed` |
| OutboundPoller.RunSafeExactly | apps/extension/src/content/outbound-poller.ts:67-274 | over whole runs with any number of pollers: no session can be lost at any point of a run if and only if every restart in it was made with no tick in flight that could still touch the session |
| OutboundPoller.RestartSafeExactly | apps/extension/src/content/outbound-poller.ts:258-274 | a new poller may be started without a session ever being lost if and only if every tick in flight has failed to fill in its prompt or has given up |
| OutboundPoller.RestartCanLose | apps/extension/src/content/outbound-poller.ts:242-247 | from every sound page, any other restart goes on, without a further restart, to an unexpired session being dropped or replaced by a foreign tick |
| OutboundPoller.OnePollerIsCalm | apps/extension/src/content/outbound-poller.ts:258-266 | a page that never starts a second poller meets the condition |
| OutboundPoller.SessionHeldUntilEnded | apps/extension/src/content/outbound-poller.ts:75-274 | in every interleaving with any number of pollers, each started under that condition: an unexpired session is neither dropped nor replaced by anything but the panel return sent for its own prompt, the end of its own tick, or the panel's own cancellation when the pairing is cleared |
| OutboundPoller.ClaimNeedsNoSession | apps/extension/src/content/outbound-poller.ts:84-107 | a claim never starts while a fresh session is held or a tick of the same poller is in flight |
| OutboundPoller.ClaimsExactly | apps/extension/src/content/outbound-poller.ts:75-107 | over a step of the page: a tick claims if and only if its poller is not stopped, has no tick in flight, the page is paired, no session of at most ten minutes is held, and no answer is being written; claiming is then its only call |
| OutboundPoller.RefusedTick | apps/extension/src/content/outbound-poller.ts:75-101 | a refused tick makes no call and changes nothing but the session state: the session goes only if it has expired, and the stage shown says why |
| OutboundPoller.ResumesExactly | apps/extension/src/content/outbound-poller.ts:105-233 | over a step of the page: which answers let a tick make its next call, which make it mark a failure and which end it; the stage shown after each call; a prompt is submitted only by a poller with `autoRelay`; the session becomes the tick's own exactly when its prompt was filled in and acknowledged and is dropped exactly when its return was marked |
| OutboundPoller.ShowsExactly | apps/extension/src/content/outbound-poller.ts:105-233 | the stages each segment shows, one after the other, in the evidence and the snapshot, and whose prompt the snapshot names |
| OutboundPoller.PollersExactly | apps/extension/src/content/outbound-poller.ts:242-274 | a poller is started only when none is live, and as asked for; stopping stops the live one and nothing else |
| OutboundPoller.PanelExactly | apps/extension/src/content/active-relay-session.ts:115-163 | a panel return is sent for the session held unless it has expired; showing and cancelling touch nothing but the session state |
| OutboundPoller.RestartedPollerLosesSession | apps/extension/src/content/outbound-poller.ts:242-247 | a concrete run: the pairing is cleared and made again while a tick is in flight, and the old tick cancels the session of the new one |
| OutboundPoller.ContinueCalls | apps/extension/src/content/outbound-poller.ts:103-233 | each segment between two waits makes exactly the call its next place in the protocol stands for |
| OutboundPoller.OutboundPromptPoller.Tick | apps/extension/src/content/outbound-poller.ts:75-104 | a tick up to its first wait: guards in order, session state, and whether it claims |
| OutboundPoller.OutboundPromptPoller.Resume | apps/extension/src/content/outbound-poller.ts:103-233 | a tick from one wait to the next or to its end; however it ends the in-flight flag is cleared |
| Extraction.WaitForStableAssistantResponse | apps/extension/src/content/extraction.ts:253-301 | the loop ends with the one right response: stable text at the first settled look, or, after the timeout, streaming, not found or unstable with the last text read |
| Extraction.StableExactly | apps/extension/src/content/extraction.ts:270-291 | succeeds if and only if within the time given the last `stablePolls` texts (at least one) since the latest streaming look are ever all equal, unreadable looks in between not counting |
| Extraction.SettledExactly | apps/extension/src/content/extraction.ts:270-291 | settled, in terms of the page: since some look no answer was being written, every message that was not blank was the same text, and there were `stablePolls` of them, or one |
| Extraction.LastReadExactly | apps/extension/src/content/extraction.ts:277-300 | the text reported on giving up is that of the last look that found a message, not blank, while no answer was being written |
| Extraction.OneRightResponse | apps/extension/src/content/extraction.ts:270-300 | the response and the number of looks are determined by page and clock |
| Extraction.BoundedLooks | apps/extension/src/content/extraction.ts:270-291 | with a clock advancing by the polling interval the loop ends within timeout / interval + 1 looks |
| Extraction.RunLengthExact | apps/extension/src/content/extraction.ts:280-288 | the counter is the length of the longest constant ending: it reaches n exactly when the last n texts are equal |
| Extraction.ExtractMarkedBlock | apps/extension/src/content/extraction.ts:129-181 | the first visible block with text under the marker, or none when no block has any |
| Extraction.MarkedTextIsSection | apps/extension/src/content/extraction.ts:146-171 | the text is, trimmed, the contiguous slice of the block from the line after the first marker line to the next heading of the marker's level or above, with no such heading inside |
| Extraction.SectionIsMarkedText | apps/extension/src/content/extraction.ts:146-171 | and the other way round: wherever such a section stands under the marker, it is what is extracted |
| Extraction.CloserExactly | apps/extension/src/content/extraction.ts:120-123 | a section is closed by a heading of one to six hash signs and white space that is not below the marker's, or by any heading if the marker is none |
| Extraction.UnixLinesExactly | apps/extension/src/content/extraction.ts:147 | exactly the carriage returns that a line feed follows are taken out |
| Texts.TrimExactly | apps/extension/src/content/extraction.ts:148 | trimming takes the white space around a text and nothing else |
| Extraction.JoinSplit | apps/extension/src/content/extraction.ts:147-168 | splitting into lines and joining them again gives the text back |
| Extraction.SplitJoin | apps/extension/src/content/extraction.ts:147-168 | joining lines and splitting again gives the lines back |
| WorkBuddyInbox.EveryRun | apps/local-server/src/adapters/workbuddy-execution-adapter.ts:72-139 | under any interleaving of workers tasks of an endpoint are claimed in enqueue order and at most once, results exist for exactly the returned and failed tasks, and closed tasks and their results never change |
| WorkBuddyInbox.Conservation | apps/local-server/src/adapters/workbuddy-execution-adapter.ts:72-139 | pending, claimed, returned and failed tasks add up to the number enqueued |
| WorkBuddyInbox.NextPendingIsFirst | apps/local-server/src/adapters/workbuddy-execution-adapter.ts:104-116 | what is claimed is the earliest enqueued pending task of the endpoint |
| WorkBuddyInbox.WorkBuddyExecutionAdapter.Enqueue | apps/local-server/src/adapters/workbuddy-execution-adapter.ts:72-98 | an inbox task as given, pending, with two minutes unless a time is given, after all others; whole new inbox |
| WorkBuddyInbox.WorkBuddyExecutionAdapter.ClaimNext | apps/local-server/src/adapters/workbuddy-execution-adapter.ts:104-116 | the loop over the map's values hands out the first task pending for this endpoint, with only its status and claim time changed, or nothing exactly when there is none |
| WorkBuddyInbox.WorkBuddyExecutionAdapter.RecordResult | apps/local-server/src/adapters/workbuddy-execution-adapter.ts:120-139 | only a claimed task takes a result; it becomes returned or failed as the report says and the report is kept; whole new inbox |
| OutputCapture.ConsistentStep | apps/local-server/src/process/contained-process.ts:46-55 | one `data` event keeps: the kept bytes are exactly the first min(cap, total) bytes in arrival order, each stream keeps a prefix of itself, `truncated` if and only if the total exceeds the cap |
| OutputCapture.CutOneMore | apps/local-server/src/process/contained-process.ts:46-55 | cutting event by event is cutting the whole arrival at the cap |
| OutputCapture.Capture.OnData | apps/local-server/src/process/contained-process.ts:46-55 | the closure keeps that invariant and never takes back a kept byte |
| CommandRunner.IncludesText | apps/local-server/src/adapters/command-runner.ts:134-138 | substring search, in both directions |
| CommandRunner.ValidateCommandExecution | apps/local-server/src/adapters/command-runner.ts:120-142 | passes if and only if the command is on the list and no lowered argument contains a forbidden pattern; a failure names the first one |
| CommandRunner.RunAllowlistedCommand | apps/local-server/src/adapters/command-runner.ts:222-331 | a command that is not permitted never reaches the runner; outcome on every path; ok exactly without a failure reason |
| CommandRunner.OkMeansCompleteOutput | apps/local-server/src/adapters/command-runner.ts:278-331 | a command run through the built-in runner is ok if and only if it exits with 0 in time and its output fits, and it then carries the complete output of both streams |
| VerificationView.BuildVerificationStatusSummary | apps/local-server/src/project-observability/builders.ts:381-423 | the two loops compute the specified summary |
| VerificationView.BuildHarnessVerification | apps/local-server/src/project-observability/builders.ts:425-506 | the loops, the sort and the fallback compute the specified view |
| VerificationView.SummaryAgreesWithView | apps/local-server/src/project-observability/builders.ts:381-506 | status is recorded if and only if there is evidence; the counts are those of the records shown, result by result; results are left out exactly when no record carries evidence |
| VerificationView.LastRecordedIsFirstShown | apps/local-server/src/project-observability/builders.ts:402-404 | the summary's time is that of the first record of the sorted view |
| VerificationView.SortedNewestFirst | apps/local-server/src/project-observability/builders.ts:468-475 | the sort puts newer records first and breaks ties by the collated key |
| VerificationView.LatestIsMaximum | apps/local-server/src/project-observability/builders.ts:402-404 | the running maximum is attained and bounds every counted artifact |
| VerificationView.TeamByIdExactly | apps/local-server/src/project-observability/builders.ts:430-451 | a map filled from the team list gives the last team with the id, and one for exactly the ids of the list |
| VerificationView.CountedExactly | apps/local-server/src/project-observability/builders.ts:394-398 | the artifacts that count are those with notes that are not blank or a known result and with a listed team, each as often as it is there |
| VerificationView.EveryRecordIsEvidence | apps/local-server/src/project-observability/builders.ts:444-466 | every record shown is that of such an artifact, field by field, with the first slot of its id in its team and the last step with its id |
| VerificationView.EveryEvidenceIsRecorded | apps/local-server/src/project-observability/builders.ts:444-466 | every such artifact has its record in the view |
| VerificationView.ShownInOrder | apps/local-server/src/project-observability/builders.ts:468-475 | the records shown stand newest first, and those of the same time by team, slot and step as collated |
| VerificationView.SortedStable | apps/local-server/src/project-observability/builders.ts:468-475 | records that the order does not tell apart stay as they were recorded |
| VerificationView.DoneExactly | apps/local-server/src/project-observability/builders.ts:408-414 | the steps counted as done are those with that status, each as often as it is there |
| VerificationView.FallbackExactly | apps/local-server/src/project-observability/builders.ts:486-499 | without evidence the done steps are shown, one record each, in order |

## Left out

- SHA-256, UTF-8 lengths and decoding, lower-casing, `Date.parse`, `JSON.parse`, collation, random ids, clocks and timers are
  parameters; their own behaviour is not modelled.
- Numbers are integers that print as digits, or any other finite number held by its printed text, or non-finite; `-0`, which
  prints as `0`, is the integer 0. `createdAt`, `index` and other plain times and counters are integers.
- Cyclic values, `toJSON`, prototypes and symbol keys are not part of this model, and neither are `undefined` fields given
  explicitly in an update (a field is present or left out).
- Times other than those that decide something (`createdAt`, `updatedAt`, `lockedAt`, `confirmedAt`, `claimedAt`,
  `returnedAt`, `lastSeenAt`, `expiresAt`), `onEvent` notifications, failure texts of the relay snapshot, durations and the
  WorkBuddy log are left out.
- `structuredClone` of what the stores take and give is what value types are; aliasing between caller and store is not
  modelled.
- GoalRuns.EveryRunSound: runs without `hydrateGoal` and `hydratePlan`, because a restored plan brings in steps whose history
  (runs, gate approvals) is not in the store.
- AuthorityChain.NoAuthorityDrift: runs without `hydrateProposal`, which takes any schema-valid proposal;
  `AuthorityChain.DispatchedAsConfirmed` and `AuthorityChain.SentAsShown` likewise. Bindings may be restored at any time.
- WorkBuddyInbox.EveryRun: runs without `hydrateTask`, and task ids that do not repeat, as random ones do not.
- GoalPlanParser.ReparseChangesNothing: for the same request, with random ids that are not empty. How a plan is printed and
  read is a parameter; `GoalPlanParser.PrintedPlanReparses` takes any text that reads back as the plan.
- The regular expression that strips a markdown fence, and the messages that carry step texts: the parser's failures are
  modelled by kind, and the fence-stripped text is an input.
- The stable library sort is modelled as a function on sequences: `sort` in place on the arrays of `detectFileConflicts` and
  `buildHarnessVerification` is a new sequence.
- Of the panel, the page model has what touches the session and the poller: returns, showing the session, starting and
  stopping the poller, and cancelling the session.
- A tick's segments are atomic, as they are in a single-threaded page; what the server and the page answer is arbitrary, and a
  rejected promise may come at any wait.
- Finding elements in the page, filling the composer, the clipboard, the selection and the visible-element filter: the
  visible text blocks, and what each look at the page finds, are inputs.
- Starting processes, signals, timeouts and launcher resolution: what the runner reports is an input.
- HTTP routes, request bodies, the console, the planner and critic validators, field-by-field schema validators beyond what
  the parser and the stores need, redaction, pairing and origin checks.
- The timeline, memory and audit views.
- `can`, `validateAction` and the list queries of the endpoint registry, and the read-only queries of the other stores.
