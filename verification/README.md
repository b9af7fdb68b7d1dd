# Verified model of the AI Team OS core

This project models, in Dafny, the parts of AI Team OS that decide what happens to a
user's task and files, and proves what they guarantee:

* the **orchestration graph**: a planner's dependency graph is validated, ready subtasks
  fan out and are merged by identifier, a review passes or rejects each one, rejection
  leads to rework or to a replan that supersedes the old plan, and a finished plan is
  reported. Executors, reviewers, planners and users are inputs without any assumption;
* **patches, approvals and rollback**: the unified-diff splitter, the hunk applier and the
  hunk relocator (format: IEEE Std 1003.1-2017, utility `diff`, section "Diff -u or -U
  Output Format"), multi-file apply with backups and a manifest, rollback over histories,
  hash-bound approvals with their append-only log, and the executor's protocol that ties
  them together across interrupts and replays;
* **accounting and storage**: reservations and settlements of parallel model calls over
  pauses and resumes, and the migration of a storage root that survives a crash at any point.

Code that computes values is modelled by functions. Code that works step by step is
modelled by methods and classes over the same state, each proved equal to a function
(`GraphRun`, `Store`, `ApprovalService`, `Executor`, `ModelGateway`) or to its promise
directly (`StorageRegistry`, the graph and patch loops); the theorems are lemmas about
those functions. Some promises of the documentation are false of the code; there the
project proves when they hold, and names an input that breaks them.

| files | content |
|---|---|
| `Plans`, `Dependencies`, `PlanValidation`, `Recovery`, `Calibration` | plans, Kahn's cycle check, validation, recovery plans, capability calibration |
| `Review`, `Workflow`, `WorkflowInvariant`, `WorkflowResults`, `WorkflowDecisions`, `WorkflowTermination`, `WorkflowRun` | the deterministic review and the graph, its invariant, its theorems, its imperative form |
| `Hunks`, `HunkLists`, `DiffPrinting`, `Relocation`, `RelocatedDiffs` | diffs: splitting, applying, undoing, printing, relocating |
| `Worktree`, `WorktreeResults`, `WorktreeHistories`, `WorktreeRepetition` | apply and rollback, over histories, with repeated targets and reused tickets |
| `Approvals`, `ExecutorProtocol`, `ExecutorOutcomes`, `ApprovedPatches` | approvals and the executor: what it may do, and what it does |
| `CallBudget`, `CallInterleavings`, `CallOvershoot`, `CallSegments` | model-call accounting |
| `Storage` | storage migration |

`dafny verify dfyconfig.toml` checks everything.

## What is proved false of the code

* A relocated diff whose earlier hunks change the file's length is refused, or edits the
  wrong line: the relocator numbers hunks in the old file while the applier counts in the
  file so far. With unique first lines it applies exactly if all hunks but the last keep
  the length (`RelocationAppliesIff`); without them it can misplace (`RelocationCanMisplace`).
* A relocated pure insertion, accepted exactly at the end of the file, is applied one line
  early (`InsertionLandsEarly`).
* The appending diff of the executor is accepted exactly for one terminated line
  (`AppendDiffFitsOneLineOnly`), and a whole-file diff that has new lines never for a file
  whose last line is not terminated (`WholeFileDiff`).
* Undoing hunks restores the lines exactly if the deleted ones ended in plain newlines
  (`UndoHunk`, `UndoAll`, `CarriageReturnIsLost`); the texts always come back (`UndoAllTexts`).
* With a repeated target a failed apply can leave a wrong version (exactly when:
  `FailuresKeepFilesIff`), and rolling back a success can too (`RepeatedTargetRestoresIff`):
  both depend only on what the diff, applied as often as the target is listed, makes of the
  old file. Rolling back a reused ticket mixes states (`ReusedTicketRestoresIff`).
* Parallel calls settle past the cap exactly when a segment is resumed with some but not
  all calls settled and a cost within the budget, two run at a time, and the limits of the
  roles it calls in allow, together, more calls than are left (`CallsStayIff`): roles that
  stop short one by one can overshoot together (`MixedRolesOvershoot`). They settle past the
  token budget exactly when two can be started with tokens left (`TokensStayIff`).
* Rounding at a pause forgives a cost exactly if it rounds down (`RoundingForgivesIff`); the
  drift is bounded (`RoundingDrift`).
* After a migration a restart finds the copy exactly if the configuration file was not
  inside the old root (`RestartFindsTheCopyIff`), and another root survives exactly if it
  was not (`OtherRootSurvivesIff`).
* The calibration leaves every relabelled subtask a code-change ancestor exactly if the
  plan is grounded, as every acyclic plan is (`PromiseKeptIff`).
* A plan that is only too large is accepted after the cut exactly if the kept budgets fit
  (`SimplificationRecovers`), which negative budgets can prevent (`NegativeBudgetsDefeatRecovery`).
* A simple task with fewer than 500 tokens is never planned: the plan of the fast path does
  not pass its own validation, and nothing handles the error (`SimplePlanNeedsTokens`, `ShortPaths`).

## Model

| member | source | states |
|---|---|---|
| Dependencies.AssertAcyclic | app/core/plan_validator.py:128-146 | Kahn's sort raises if and only if the dependency relation has a cycle, for every plan with unique identifiers and existing dependencies, repeated entries included |
| Dependencies.BuildEdges | app/core/plan_validator.py:130-135 | indegrees count dependency entries and edge lists are the reversed entries |
| Dependencies.Decrement | app/core/plan_validator.py:141-144 | one pass over a node's edges lowers each indegree once per entry and queues a node exactly when its last open entry is met |
| Dependencies.StuckSetHasCycle | app/core/plan_validator.py:145-146 | a set of nodes none of which is free of dependencies inside the set contains a cycle |
| Dependencies.MinimalMember | app/core/plan_validator.py:128-146 | in an acyclic graph every non-empty set of nodes has a member with no dependency in the set |
| PlanValidation.ValidatePlan | app/core/plan_validator.py:28-125 | the executable validator returns the first failure in the order of the source |
| PlanValidation.ValidateAccepts | app/core/plan_validator.py:28-125 | it accepts exactly the plans that satisfy all ten requirements, acyclicity included |
| PlanValidation.HasUniqueIds | app/core/plan_validator.py:51-54 | comparing the size of the identifier set with the list length decides uniqueness |
| PlanValidation.SizeCodes | app/core/plan_validator.py:36-50 | each of the three size codes is raised exactly for its own limit, before anything else is looked at |
| PlanValidation.RefusalCodes | app/core/plan_validator.py:36-125 | every other code names the first thing that is wrong, in the order of the checks and of the plan |
| PlanValidation.RoutesToWorkers | app/core/orchestration.py:146-163 | capabilities lead to the researcher or the executor only, and labels outside the enumeration nowhere |
| Recovery.DeterministicSimplification | app/core/orchestration.py:166-174 | the cut keeps the first subtasks and drops dependencies on the others |
| Recovery.SimplificationRecovers | app/core/orchestration.py:166-174 | a plan that fails on size alone is accepted after the cut exactly when the kept budgets fit, hence always with non-negative budgets |
| Recovery.NegativeBudgetsDefeatRecovery | app/core/orchestration.py:166-174 | with budgets 6 and -5 under a task budget of 1 the cut plan is refused |
| Recovery.RecoveryPlanValidates | app/core/orchestration.py:231-354 | the read-only recovery plan is accepted for every non-trivial envelope exactly when the budget holds 500 tokens per subtask |
| Recovery.RecoveryPlanOrder | app/core/orchestration.py:231-354 | comparison waits for discovery, analyses run side by side, and a synthesis waits for both and uses no tool |
| Recovery.ToolsAreAvailable | app/core/orchestration.py:235-243 | the plan's tool is an available one of the researcher's, the GitHub search exactly if the goal asks for it and it is there |
| Recovery.EnvelopeIsPossible | app/core/orchestration.py:113-143 | an envelope never demands more subtasks than it allows, at most six, and never allows more than 20 model calls |
| Calibration.HasChangeAncestor | app/core/orchestration.py:189-202 | the pruned recursive search ends on cyclic plans too and finds a code-change proper ancestor if and only if there is one |
| Calibration.CalibratePlanCapabilities | app/core/orchestration.py:177-228 | the mutating scan relabels what the scan over the changing labels selects, and changes nothing for other shapes |
| Calibration.PromiseKeptIff | app/core/orchestration.py:216-227 | for every plan with unique identifiers, cyclic or not, every relabelled subtask keeps a code-change ancestor if and only if each marked code change with a code-change ancestor has one that is not itself of this kind |
| Calibration.AcyclicIsGrounded | app/core/orchestration.py:216-227 | acyclic plans meet that condition, so they keep the promise |
| Calibration.ScanKeepsPromise | app/core/orchestration.py:216-227 | under that condition exactly the marked code changes with a code-change ancestor in the input are relabelled, although labels change during the scan |
| Calibration.CalibratedKeepsAncestors | app/core/orchestration.py:216-227 | under that condition nobody's code-change ancestry changes |
| Calibration.CalibrationIsIdempotent | app/core/orchestration.py:177-228 | under that condition a second calibration relabels nothing |
| Calibration.CalibrationIgnoresOrder | app/core/orchestration.py:216-227 | under that condition the result does not depend on the order of the list |
| Calibration.RelabelsExactly | app/core/orchestration.py:216-227 | each subtask of a grounded plan becomes a verification exactly if it is a code change, its text speaks of verification and it depends on a code change over any number of steps; all others stay as they are |
| Calibration.CyclicPlanLosesItsChange | app/core/orchestration.py:216-227 | two marked code changes that depend on each other do not meet it, and both are relabelled |
| Review.Check | app/agents/reviewer.py:23-166 | the loops return the issue codes in source order |
| Review.ReviewIsExact | app/agents/reviewer.py:32-166 | no issue is raised exactly for traceable deliveries with content that respect the budget and the executor's duties |
| Review.CodesAreExact | app/agents/reviewer.py:32-166 | each issue code is raised exactly for the fault it stands for |
| WorkflowInvariant.SendsAreReady | app/graph.py:539-569 | the scheduler never fails a lookup and sends exactly the waiting subtasks whose dependencies have passed, each once |
| WorkflowInvariant.SomethingIsReady | app/graph.py:905-931 | an unfinished plan without rejections has a pending subtask whose dependencies have all passed, thanks to the cycle check |
| WorkflowInvariant.DispatchKeeps | app/graph.py:539-569 | dispatch keeps the invariant, and goes straight to review only when nothing is rejected |
| WorkflowInvariant.ExecKeeps | app/graph.py:571-729 | execution keeps the invariant: only ready subtasks change, passed ones never |
| WorkflowInvariant.ReviewKeeps | app/graph.py:731-931 | review and routing keep the invariant, whatever the verdicts |
| WorkflowResults.MergeMembers | app/core/state.py:144-149 | merging keeps the right-hand subtasks and those left-hand ones they do not name, each identifier once |
| WorkflowResults.ReplannedMembers | app/graph.py:476-486 | after a replan every subtask of the new plan starts afresh, every other one is superseded, and there is nothing else |
| WorkflowResults.PlanStepAdopts | app/graph.py:313-530 | the planner node either ends the run or adopts a valid plan, and adopts on a replan only below the limit |
| WorkflowResults.StepKeeps | app/graph.py:148-1080 | every step keeps the epoch invariant: the active subtasks are the latest plan, dependencies stay inside it, whatever was executed, passed or rejected has its dependencies passed |
| WorkflowResults.RunKeeps | app/graph.py:148-1080 | the invariant holds after every run |
| WorkflowResults.NeverFailsReworkLimit | app/graph.py:905-951 | the node for an exhausted rework limit is never entered and no dependency lookup fails |
| WorkflowResults.FinalizeIffDone | app/graph.py:905-931 | a review leads to `finalize` exactly when every active subtask has passed and no replan is due; otherwise work goes on |
| WorkflowResults.FinalizeEnds | app/graph.py:953-987 | `finalize` then never fails for an unfinished subtask: it completes exactly if no approval is open and the product is complete, and names which of the two failed |
| WorkflowResults.BoundedEffort | app/graph.py:313-341 | at most three plans are adopted in a run, and within each a subtask is executed at most once on the fast paths, twice in a standard and three times in a complex task |
| WorkflowResults.PassedIsFinal | app/graph.py:545-569 | within an epoch a passed subtask is never touched again |
| WorkflowResults.CompletedIsTraceable | app/graph.py:988-1040 | at "completed" every identifier cited by the report or an active claim is a recorded evidence or artifact |
| WorkflowDecisions.ReviewDecides | app/graph.py:748-804 | a delivery with issues goes back with exactly these; a clean one is decided by the reviewer's answer where a reviewer is needed and passes where none is; history, signatures and rework are recorded, and nothing else changes |
| WorkflowDecisions.PassesIff | app/graph.py:757-804 | a subtask passes if and only if its delivery is acceptable and a needed reviewer lets it pass; otherwise it is rejected with one more rework and one more signature |
| WorkflowDecisions.ReplansExactly | app/graph.py:854-902 | a review asks for a new plan exactly if the user steers, or rejected subtasks failed twice alike, or some went over the rework limit, in this order, and names exactly those |
| WorkflowDecisions.ReviewLeads | app/graph.py:905-931 | after every review of a run a reason leads to the planner, a finished plan to `finalize`, and anything else to the next round |
| WorkflowDecisions.ExecutionDelivers | app/graph.py:571-729 | every subtask that was sent is delivered by a role that can execute, or sent back with the code of what is missing; the others and what was recorded stay |
| WorkflowDecisions.PlannerAnswers | app/graph.py:383-530 | the full planner adopts the proposal if it is valid within the envelope of the task, else the deterministic plan if that is valid, else its cut if it is only too large, and ends the run exactly if there is none; in real mode every adopted plan is valid within the envelope, in fake mode without one |
| WorkflowDecisions.ShortPaths | app/graph.py:331-382 | out of replans the run fails; a trivial task gets the empty plan, a simple one its single research subtask, neither with a reviewer |
| WorkflowDecisions.SimplePlanNeedsTokens | app/graph.py:175-201 | the plan of the simple path is valid if and only if the task has 500 tokens |
| WorkflowDecisions.PlanSizes | app/graph.py:383-411 | an adopted real-mode plan has two to four subtasks, or three to six if complex, and the fewest allowed if the task only reads |
| WorkflowDecisions.PlanCapabilities | app/core/orchestration.py:80-98 | an adopted real-mode plan changes code only in a change or delivery task, acts on the desktop only in such a task, and uses researchers only in a reading one |
| WorkflowDecisions.ReadOnlyStaysReadOnly | app/graph.py:313-530 | in real mode no run of a task that only reads ever has a subtask for the executor, whatever is proposed and however often it replans |
| WorkflowDecisions.ReportInOrder | app/graph.py:988-988 | the report names every identifier once, in the order in which the active subtasks first cite them |
| WorkflowTermination.StepMeasure | app/graph.py:313-931 | every node visit lowers one measure built from replans left, rework left and the node |
| WorkflowTermination.EveryRunEnds | app/graph.py:1043-1080 | every run has ended after 794 node visits |
| WorkflowRun.MergeSubtasks | app/core/state.py:144-149 | the insertion-ordered dictionary computes the merge |
| WorkflowRun.FanInIgnoresOrder | app/core/state.py:144-149 | the fan-in gives the same list for every completion order of the branches |
| WorkflowRun.RouteDispatch | app/graph.py:539-569 | the loop computes the list of sends or fails the same lookup |
| WorkflowRun.ReviewList | app/graph.py:731-804 | the review loop judges exactly the executed active subtasks and leaves the rest alone |
| WorkflowRun.GraphRun.PlanNode | app/graph.py:313-530 | the planner node with its early exits, one recovery and its writes is the planner step |
| WorkflowRun.GraphRun.DispatchNode | app/graph.py:535-569 | the dispatch node is the dispatch step |
| WorkflowRun.GraphRun.ReviewNode | app/graph.py:731-931 | the review node with its routing is the review step |
| WorkflowRun.GraphRun.Invoke | app/runner.py:750-754 | running the graph to its end terminates within the bound, in the state the step function gives |
| Hunks.SplitHunks | app/core/patch_engine.py:291-306 | the splitting loop opens a hunk at every `@@` line and drops file headers and lines before the first hunk |
| Hunks.ApplyHunk | app/core/patch_engine.py:315-373 | succeeds exactly when counts are right and the old side matches at the stated position, and then returns prefix, new side and suffix |
| HunkLists.ApplyDiff | app/core/patch_engine.py:291-313 | hunks are applied one after another, each to the list the previous one left |
| HunkLists.LengthChange | app/core/patch_engine.py:310-313 | over a hunk list the length changes by the sum of the deltas |
| HunkLists.StrangeLinesAreRefused | app/core/patch_engine.py:296-373 | a malformed hunk header, or a line after a header that is neither context nor addition nor deletion, makes every file refuse the diff; a diff without hunks changes nothing |
| HunkLists.UndoHunk | app/core/patch_engine.py:315-373 | the hunk with its sides swapped always applies to the result, and restores the lines exactly when every deleted line ended in a plain newline |
| HunkLists.UndoAll | app/core/patch_engine.py:310-373 | applying the swapped hunks in reverse order restores the original lines if and only if as many lines as before end in something other than a plain newline, for every file and every hunk list that applies |
| HunkLists.UndoAllPlain | app/core/patch_engine.py:310-373 | a file whose lines all end in plain newlines stays one and is always restored |
| HunkLists.UndoAllTexts | app/core/patch_engine.py:310-373 | in any file the swapped hunks in reverse order apply and restore the text of every line |
| HunkLists.CarriageReturnIsLost | app/core/patch_engine.py:358-358 | a deleted line that ended in a carriage return and a newline comes back with a newline |
| DiffPrinting.ParsePrint | app/core/patch_engine.py:291-306 | parsing a printed hunk list gives it back without the body lines that read as file headers |
| DiffPrinting.PrintedDiffIsSafe | app/core/patch_engine.py:291-333 | a printed diff applies exactly like its hunks, or is refused by the count check when a body line was dropped; never a silently different file |
| DiffPrinting.PureInsertion | app/core/patch_engine.py:335-361 | additions alone go in before the line their header names, zero meaning the front like one, and fit exactly if that is not past the end |
| DiffPrinting.WholeFileDiff | app/agents/executor.py:147-158 | the whole-file diff yields exactly the new lines, and is refused exactly when an old line starts with `-- `, a new one with `++ `, or the old file's last line is not terminated and runs on into the first new line |
| DiffPrinting.AppendDiffFitsOneLineOnly | app/agents/executor.py:110-119 | the appending diff of a non-empty file is accepted exactly for one line that is terminated (and no added line that reads as a header), and then appends |
| Relocation.Search | app/core/patch_engine.py:70-79 | the candidate list has one entry exactly when there is a single match at or after the previous end |
| Relocation.RelocateHunks | app/core/patch_engine.py:43-94 | the relocation loop, hunk by hunk, with its cumulative delta |
| Relocation.MiscountedIsRefused | app/core/patch_engine.py:71-85 | a hunk with fewer or more old lines than its header says is refused, and so is one whose old lines do not occur exactly once after the last window |
| Relocation.BodyReaches | app/core/patch_engine.py:66-70 | a body reaches to the next `@@ ` or `--- ` line and no further |
| RelocatedDiffs.RelocatePrinted | app/core/patch_engine.py:43-94 | relocating a printed diff gives the print of the same bodies under new headers, or is refused when a hunk has no unique place |
| RelocatedDiffs.RelocatedDiffApplies | app/core/patch_engine.py:43-94 | with right counts, non-empty old sides, all hunks but the last of equal length and clean bodies, an accepted relocation applies and replaces all its disjoint ordered windows at once |
| RelocatedDiffs.NewStartIsPosition | app/core/patch_engine.py:86-93 | the new start of a relocated header is where the new side stands in the patched file |
| RelocatedDiffs.ShiftedApplies | app/core/patch_engine.py:310-373 | headers that count in the file so far would replace all windows, whatever the lengths |
| RelocatedDiffs.RelocationAppliesIff | app/core/patch_engine.py:86-93 | with unique first lines, an accepted relocation applies if and only if all hunks but the last keep the length, and is refused otherwise |
| RelocatedDiffs.RelocationCanMisplace | app/core/patch_engine.py:86-93 | without them it can edit the wrong line: [a, x] becomes [p, y, x] where the windows ask for [p, x, y] |
| RelocatedDiffs.InsertionLandsEarly | app/core/patch_engine.py:87-89 | a relocated diff that ends in a pure insertion is accepted exactly if the hunks before it end the file, and then inserts at the number of the file's last line, before that line when those hunks keep the length |
| Worktree.Store.Apply | app/core/patch_engine.py:238-289 | the loop over the targets, with backups, manifest and restore on failure, gives the specified disk |
| Worktree.Store.RollbackPatch | app/core/rollback.py:65-133 | the loop over the manifest undoes exactly the entries of the ticket in file order, and reports missing backups or none at all |
| Worktree.RollbackAnswers | app/core/rollback.py:65-133 | a rollback reports success exactly if the ticket has entries and no backup is gone, naming the target of every entry; otherwise it names exactly the targets whose backup is gone |
| Worktree.RemovedIsInTrash | app/core/rollback.py:79-88 | a file that a rollback removes is in the trash, and one that no entry names stays |
| WorktreeResults.RollbackRestores | app/core/rollback.py:76-96 | rolling back a recorded patch restores the tree from before it, if nothing else changed |
| WorktreeResults.FailedApplyLeavesOnlyCreated | app/core/patch_engine.py:284-289 | a failed apply keeps every file it found; what remains are files it created, all in the manifest, and rolling back removes them |
| WorktreeResults.ApplyThenRollback | app/core/patch_engine.py:238-283 | a successful apply writes to each target what the diff makes of it, touches nothing else, keeps other records, and is undone by rolling back |
| WorktreeHistories.NewestFirst | app/core/rollback.py:65-133 | rolling back newest first restores every earlier worktree in turn |
| WorktreeHistories.AnyOrderRestores | app/core/rollback.py:65-133 | patches on disjoint targets roll back in any order, repeated or not, to the first worktree |
| WorktreeRepetition.RollbackAfterApply | app/core/rollback.py:65-133 | for any targets and any ticket, rolling back gives every target its state before its last replacement, and every other path what rolling back before the apply would have given |
| WorktreeRepetition.ReusedTicketRestoresIff | app/core/rollback.py:65-133 | with a ticket used before, rolling back restores the tree from before the last apply exactly if the earlier entries touch nothing else, and the tree from before the earlier ones exactly if they change none of its targets |
| WorktreeRepetition.ReusedTicketLeavesResidue | app/core/rollback.py:76-96 | so a file created by a failed apply under the same ticket is put back instead of removed |
| WorktreeRepetition.FailuresKeepFilesIff | app/core/patch_engine.py:284-289 | for any targets, every failing apply keeps every file it found if and only if no turn is reached whose target is an old file that the diff, applied as often as it was listed before, has changed and then applies to once more |
| WorktreeRepetition.RepeatedTargetRestoresIff | app/core/rollback.py:65-133 | for any targets, rolling back a success restores the tree if and only if every target is listed once, or is an old file that the diff, applied once less often than it is listed, gives back |
| WorktreeRepetition.TreeByCount | app/core/patch_engine.py:244-284 | an apply without faults gets past any number of targets exactly if the diff applies to each as often as it is listed, and leaves each as often edited |
| WorktreeRepetition.RepeatedTargetRestoresWrongVersion | app/core/patch_engine.py:284-289 | for a file named twice both hold exactly if the diff leaves it as it is |
| Approvals.ApprovalService.CreateRequest | app/core/approval.py:121-174 | a pending request under a fresh identifier, bound and logged |
| Approvals.ApprovalService.DecideRequest | app/core/approval.py:193-214 | the new service state and answer of every branch, expiry first |
| Approvals.ApprovalService.VerifyExecution | app/core/approval.py:220-243 | the new service state and answer of every check in order |
| Approvals.ApprovalService.Load | app/core/approval.py:252-258 | reloading replays the log, the last line for an identifier winning |
| Approvals.LogIsTheMap | app/core/approval.py:246-258 | after any operations the replayed log equals the requests in memory, so a restart changes nothing |
| Approvals.ClosedStaysClosed | app/core/approval.py:193-243 | whatever the clock says, bound hashes and expiry never change, and a request that left pending and approved is never approved or verified again |
| Approvals.ApprovedOnlyByDecision | app/core/approval.py:193-214 | nothing is approved but by an approving decision taken before the expiry |
| Approvals.VerifiedExactly | app/core/approval.py:220-243 | verification succeeds exactly for an approved, unexpired request and matching hashes, and changes at most an expired status |
| Approvals.DecidedTooLate | app/core/approval.py:198-201 | a decision past the expiry closes a request of any status for good: nothing done later, at any clock, gets it approved or verified |
| Approvals.DecisionTakesEffect | app/core/approval.py:193-214 | any decision on an open request is accepted, leaves it with the status that was decided, and touches no other request; approving twice is approving once |
| Approvals.DecidedIsVerified | app/core/approval.py:193-244 | an approved request is verified with its own bindings until it expires; a rejected or cancelled one never is, and each is refused by its own error |
| Approvals.RequestLives | app/core/approval.py:121-244 | a new request can be approved and verified within its life and not after it; a changed operation, parameter or target is refused as such |
| ExecutorProtocol.IndexOf | app/core/artifacts.py:106-113 | deduplication finds a saved diff with this content if there is one |
| ExecutorProtocol.LastMatch | app/agents/executor.py:292-301 | a request that is taken up again is pending or approved and names this diff and these targets |
| ExecutorProtocol.Executor.FindRequest | app/agents/executor.py:292-301 | the loop finds the last matching request by time and creation |
| ExecutorProtocol.Executor.AskApproval | app/agents/executor.py:264-322 | saving the diff and finding or creating the request |
| ExecutorProtocol.Executor.ResumeWith | app/agents/executor.py:365-430 | the payload's request is resolved, a request created in vain is cancelled, and an approval is executed |
| ExecutorProtocol.Executor.RunOnce | app/agents/executor.py:172-514 | one execution of the node, replay, automatic approval and interrupt included |
| ExecutorOutcomes.ApprovalIsExecuted | app/agents/executor.py:368-436 | resumed with an approval, the executor applies the patch exactly if the request named is approved, in time and still bound to the proposal and to what the targets hold; otherwise it changes nothing on disk |
| ExecutorOutcomes.RejectionIsKept | app/agents/executor.py:380-401 | resumed with a rejection, it applies and reports nothing, leaves the request named alone and cancels one that was asked for in vain |
| ExecutorOutcomes.PolicyIsExecuted | app/agents/executor.py:349-361 | under a permission policy the request is approved on the spot and the patch applied under the same conditions |
| ExecutorOutcomes.ReplaysExactly | app/agents/executor.py:178-246 | it replays exactly if an approved patch of the subtask has passed its tests, the latest one, and then changes nothing |
| ExecutorOutcomes.LastMatchIsLatest | app/agents/executor.py:292-303 | the request taken up again is the last one asked for among those that can be decided, and none is taken up only if there is none |
| ExecutorOutcomes.PausedThenApproved | app/agents/executor.py:262-436 | from the pause over the user's approval to the resumed execution, which proposes the same patch again: it is applied, if the request has not expired and the targets hold what it is bound to |
| ExecutorOutcomes.PausedThenRejected | app/agents/executor.py:262-401 | from the pause over the user's rejection: nothing is applied, the rejection stands, and the request asked for anew is closed |
| ApprovedPatches.ApprovedIsApplied | app/agents/executor.py:264-430 | the disk changes only by applying exactly the diff and targets bound to an approved, unexpired request, to files that hold what the request is bound to |
| ApprovedPatches.RunStaysBound | app/agents/executor.py:172-514 | in every run of executions, decisions, restarts and outside edits every request with a diff stays bound to that diff and its targets |
| ApprovedPatches.SecondApplyNeedsOldContents | app/agents/executor.py:402-430 | two applies under one approval anywhere in a run see the same patch and the same target contents |
| ApprovedPatches.EffectiveApplyIsFinal | app/agents/executor.py:402-430 | right after an apply that changed a target the same approval is refused |
| ApprovedPatches.FailedApplyBlocksRetry | app/agents/executor.py:420-430 | after a failed apply that left anything behind the same approval is refused |
| ApprovedPatches.AppliedOnlyAfterApproval | app/agents/executor.py:349-430 | in a run that starts without requests a patch is applied under a ticket only if the user approved that ticket, or an automatic execution asked for and approved that ticket, before or in the same execution |
| CallBudget.LastAttempt | app/gateway/model_gateway.py:332-370 | the retry loop ends at the first reply, the first error not worth retrying, or the last attempt allowed |
| CallBudget.ModelGateway.AssessAndReserve | app/core/workflow_cost.py:102-112 | assessing and reserving in one step, over the larger of settled and reserved calls |
| CallBudget.AssessmentIsExact | app/core/workflow_cost.py:51-100 | a call is granted exactly while the limit in all and that of its role are not reached, with a warning from the twelfth on, and the run is stopped exactly at the hard limit |
| CallBudget.ReservationIsExact | app/core/workflow_cost.py:102-112 | the larger counter is assessed, and exactly a granted call is counted for its role and in all |
| CallBudget.ModelGateway.Record | app/core/budget.py:100-119 | a settlement is added exactly when it exceeds neither budget |
| CallBudget.ModelGateway.Generate | app/gateway/model_gateway.py:149-384 | at most one reservation, at most one more provider call than retries allowed, and a settlement exactly when a reply arrives within the budget |
| CallInterleavings.ReserveWithinLimits | app/core/workflow_cost.py:51-112 | a reservation keeps the cap and the role limits, and is granted only below the cap |
| CallInterleavings.GrantsStayWithinLimits | app/core/workflow_cost.py:102-112 | in every interleaving granted calls never exceed the hard limit (nor 16 when not complex), no listed role exceeds its limit, and a fresh run settles no more |
| CallInterleavings.GrantsInNumbers | app/core/workflow_cost.py:29-38 | in any interleaving of a run that is not complex at most 16 calls are granted, four to researchers, three to executors and two to any other listed role |
| CallInterleavings.SegmentOvershoot | app/runner.py:394-405 | a segment resumed from k settled calls with at most w at a time settles no further past the cap than the smaller of k and w - 1, and no more tokens past the budget than w - 1 calls' worth |
| CallOvershoot.CallsStayIff | app/gateway/model_gateway.py:173-177 | for every set of roles and every width, no run in these roles settles past the cap if and only if at most one call runs at a time, the segment starts with no call, with the cap reached or with a cost past the budget, or the limits of the roles add up to no more than the calls left |
| CallOvershoot.MixedRolesOvershoot | app/core/workflow_cost.py:51-112 | under a limit of six, resumed after one call, no listed role alone passes the limit, but researchers and executors together do |
| CallOvershoot.ParallelResumeOvershoots | app/gateway/model_gateway.py:173-177 | two researchers of a task resumed after one call of two settle three |
| CallOvershoot.TokensStayIff | app/core/budget.py:100-119 | no run settles past the token budget, for calls of any size, if and only if at most one call runs at a time, no token is left, the cost is past its budget, or no two calls can be granted and started |
| CallOvershoot.ParallelSettlementOverspends | app/core/budget.py:100-119 | two researchers side by side can spend twice any budget |
| CallSegments.PausesAddNothing | app/runner.py:394-405 | over any number of pauses sequential segments settle no more calls than the cap and no more tokens than the budget |
| CallSegments.RoundingDrift | app/core/budget.py:71-77 | rounding the cost at every pause moves it from the true cost by at most half a millionth a pause, and lets no more than that past the budget |
| CallSegments.RoundingForgivesIff | app/core/budget.py:71-77 | a pause lets some call through whose cost exceeds what is left if and only if the cost rounds down and the rounded usage is within the budgets |
| CallSegments.RoundingRefusesIff | app/core/budget.py:71-77 | it refuses some call whose cost is left if and only if the cost rounds up and the usage is within the budgets |
| CallSegments.SmallCostsAreForgotten | app/core/budget.py:71-77 | a cost below half a millionth is forgotten at every pause |
| Storage.StorageRegistry.RootsApart | app/core/storage.py:331-341 | when a migration is not refused, neither root's files reach into the other, so deleting the old root cannot reach the new copy |
| Storage.StorageRegistry.RefusesExactly | app/core/storage.py:290-350 | which obstacle is answered how, in order: the root, the install directory, the place in use, a file, an occupied directory, a nested target |
| Storage.StorageRegistry.Migrate | app/core/storage.py:316-394 | with the configuration outside both roots, every state of the disk leads a restart to the whole root; a handled failure ends with the old configuration and root; success deletes nothing outside the old root, and is what happens unless the copy fails or comes out wrong or the configuration cannot be saved; a target inside the installation is refused with nothing changed |
| Storage.StorageRegistry.RestartFindsTheCopyIff | app/core/storage.py:379-384 | after a migration a restart finds the copy exactly if the configuration file was not inside the old root, or the default is the new place |
| Storage.StorageRegistry.OtherRootSurvivesIff | app/core/storage.py:382-384 | another root stays whole exactly if none of its files lay inside the root that moved |
| Storage.MoveMemoryWithConfiguration | app/core/storage.py:379-384 | migrating a memory root that holds the configuration file ends with the default memory root, and no file under it |
| Storage.MoveMemoryAroundWorkspace | app/core/storage.py:382-384 | migrating the workspace into the memory root and then the memory root leaves the workspace setting on a directory without files |

## Left out

Of the orchestration graph:

- Prompts, model providers, structured-output repair, keyword classifiers: their answers are inputs; a verification marker is a boolean of the subtask.
- Pauses by task control are no steps; the graph library's recursion limit and its error on concurrent writes are not modelled.
- The replan reason that `exec_subtask` writes for a rejected subtask is omitted: the review that always follows overwrites it before anything reads it.
- The clarification node has no branch that ends the run: the failure code it tests is never set.
- `ProductCompletionValidator` is an arbitrary answer, and the final report's prose is not modelled.
- The tool-call, evidence and key reducers follow the subtask reducer; evidence and artifacts are sets that only grow.
- Plan items are values: that simplification and calibration change objects other holders may share is not captured.
- Calibration and the cycle check speak of plans with unique identifiers; a planner's answer that repeats one is refused by the validation that follows.
- Failure signatures are compared as values, their digests taken to be free of collisions.

Of patches and approvals:

- File lines are texts with terminators; exotic line separators, the joining of an applied addition with an unterminated last line when the file is read again, header suffixes and the wording of errors are not modelled.
- The validator's other checks (paths, sizes, binary files, line counts) are one input: a proposal passed or it did not; links and path normalisation are not modelled, so targets are distinct paths.
- Parent directories, `.tmp` files and file metadata are not modelled; a restore after a failed apply is taken to succeed.
- Rollback to the initial snapshot and restoring from the trash are plain copies.
- Hashes are the values they are taken of, identifiers are fresh numbers, and the clock is an arbitrary number at every use except that creation and decision within one execution share one.
- Verification of a request object of another service, and failing writes of the approval log, are not modelled; reading the targets and applying the patch count as one step.
- FailedApplyBlocksRetry: requires distinct targets and an approval without earlier manifest entries, because repeated targets are restored to a wrong version.
- RelocatedDiffApplies: speaks of printed diffs with right counts and clean bodies; other diffs are relocated by the same loop but refused or changed as the exact conditions say.
- Anchored: the exact condition for relocation needs unique first lines, because repeated lines can make a displaced hunk fit by chance.

Of accounting and storage:

- Additions to one counter are taken to be one step each; the price table, context compaction, cache diagnostics and events do not touch the budget.
- Subtask budget allocation is one comparison of a sum.
- Record: costs are real numbers; the rounding of binary fractions is not modelled.
- Symbolic links, case-insensitive paths, system directories and empty directories are not modelled in the migration; writing the configuration file is one step, and restoring it is taken to succeed.
- Cleaning of caches, project profiles and directory sizes would add easy members only.

Desktop, voice, web, packaging and the HTTP interface are not part of this model.
