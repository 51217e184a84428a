# CodeAgent-X in Dafny

A model of the CodeAgent-X agent runtime and proofs about it. The runtime drives a
language model through bounded turns: a model call, a batch of tool calls or a
completion, verification, rollback and retry, and a terminal status. Modelled are
the parts whose guarantees span several functions.

- **Run engine** (`RunSpec`, `Runtime`): a run is a function of what its environment
  answers: model responses, verifier verdicts (or exceptions), tool and I/O outcomes,
  and clock readings. `RunSpec` is that function. `Runtime` holds the classes that
  change in place (state, budget, plan steps, conversation, files, and the
  controllers), and proves that they do what `RunSpec` says. `RunLedger`,
  `RunOutcome`, `RunEnding`, `RunPlans`, `RunVerdicts`, `RunConversation`, `RunTools`,
  `RunAnswers` and `RunRollback` prove what holds over every run, for every
  environment, and `AgentRun` gives it for the objects that a public run leaves
  behind. `StrayRun` shows a run whose rollback cannot restore.
- **Patch transactions and rollback** (`Patching`, `FileTools`, `PatchPolicy`): files
  are a map from path to text, and every I/O step of a transaction may fail.
- **Conversation window and provider conversion** (`Conversation`, `Exchanges`,
  `Wire`, `HttpRetry`).
- **Reflection, retry decision and plan** (`Reflection`, `Evidence`, `Planning`).
- **Scanners, indexes and the run store** (`JsComments`, `JsScopes`, `JsSource`,
  `Utf8`, `Fingerprint`, `Retriever`, `Ranking`, `RunStore`).

`dafny verify dfyconfig.toml` checks the whole project.

## How a run is modelled

The journal of an `Engine` keeps the recorded events of a run by kind: message lists
sent, batches, transactions attempted, verifier calls, policy checks, rollbacks and
terminal events. Policy checks and rollbacks carry the turn they happened in, which
is how "no model call follows" is stated.

The rollback theorem is stated for a set of workspace paths and a rollback before
which every recorded transaction was clean for that set: its target lies in the
workspace, and its backup and temporary files are new and outside of it. Failed
transactions may leave their target changed. Such a stray (`Patching.StrayExactly`
says when it happens, by I/O outcomes alone) is harmful exactly if no patch on its
path was recorded before it: then nothing remembers what the path held, and the
rollback leads back to what the stray left. `RunRollback.EveryRollbackRestoresStart`
states that boundary in both directions, path by path, and
`StrayRun.StrayFileRemains` is a run beyond it. A `RollbackReport` with failures
makes no promise about the files; `RunVerdicts.FatalVerdictsEndTheRun` shows that the
run ends there.

## Where code and documentation differ

- `edit_file` says old_string must be unique in the file. The guard counts
  non-overlapping matches, so "aa" in "aaa" passes it.
  `FileTools.GuardMeansUniqueExactly` gives the exact condition.
- A failed apply puts the target back from its backup. A file that did not exist
  has no backup and can survive an error (`Patching.NewTargetCanBeStranded`), and the
  copy back can fail itself; `Patching.NewTargetExactly` and `Patching.OldTargetExactly`
  say exactly when.
- A tool call cap of zero is reached before any batch, so the bound "cap - 1 plus the
  last batch" has no last batch to speak of; `RunLedger.OnlyLastBatchOverruns` states
  both cases.
- The fingerprint encodes paths with `errors="replace"`, so an undecodable byte of a
  file name, which the walk returns as a lone surrogate, becomes a question mark:
  different workspaces can share a stream (`Fingerprint.SurrogateConfuses`).
  `Fingerprint.SameStreamExactly` and `Fingerprint.StreamTellsExactly` say exactly when;
  where every name decodes the stream determines the files.

## Model

| member | source | states |
|---|---|---|
| RunLedger.RunEndsOnce | codeagentx/agent/coordinator.py:67-192 | Every run that returns is SUCCEEDED or FAILED with exactly one terminal event and one closing budget event; SUCCEEDED only with an unexhausted budget, tool calls below the cap, and last verification and policy reports that did not fail |
| RunLedger.RunAccounting | codeagentx/agent/coordinator.py:109-190 | On every exit: trajectory length = tool calls, model calls = turns <= max_turns, retries <= max_reflection_retries, verifier calls <= max_reflection_retries + 1, and the batches partition the tool calls, each begun below the cap |
| RunLedger.OnlyLastBatchOverruns | codeagentx/agent/budget.py:44-85 | With a cap on tool calls a run exceeds it by its last batch only; with no batch at all no tool ran (the form that also holds for a cap of zero) |
| RunLedger.RetryNeedsCleanEvidence | codeagentx/agent/completion.py:205-290 | A retry is scheduled only with reflection on, retry budget left, no sandbox refusal, no critical policy violation and no incomplete rollback |
| RunLedger.CompleteShape | codeagentx/agent/completion.py:83-171 | A completion either ends the run with one terminal event and no new retry, or adds exactly one retry report with the next index and one user prompt; trajectory and budget are untouched |
| RunLedger.LoopLedger | codeagentx/agent/coordinator.py:109-190 | From any turn on, the rest of the run ends with one terminal event, within the limits on turns, retries and verifier calls, and justified if it is a success |
| RunLedger.TurnLedger | codeagentx/agent/coordinator.py:109-172 | One turn of any environment keeps the ledger invariant, or closes it for good |
| RunOutcome.CompletionExactly | codeagentx/agent/completion.py:83-171 | A completion of a running task ends SUCCEEDED exactly if the verifier answered, its report did not fail and no patch limit is breached; it goes on exactly if the verifier answered and a retry may follow; otherwise it ends FAILED |
| RunOutcome.FailureExactly | codeagentx/agent/completion.py:119-151 | After a failed attempt the task goes on exactly if reflection is on, a retry is left, and neither the verdict, the policy report nor the rollback of this attempt rules it out |
| RunOutcome.RetryScheduledExactly | codeagentx/agent/completion.py:205-290 | A retry is scheduled exactly if reflection is on, fewer than max_reflection_retries were used, and there is no sandbox refusal, critical violation or incomplete rollback |
| RunOutcome.RefusalExactly | codeagentx/agent/completion.py:205-290 | Without a retry nothing is recorded where retries are off, and otherwise one decision that says why: no reflection, evidence that rules a retry out, or else no retry left |
| RunOutcome.RefusalStands | codeagentx/agent/completion.py:251-264 | Where retries are configured a refusal blocks the recovery step of the plan with its reason |
| RunOutcome.RetryReopens | codeagentx/agent/completion.py:266-306 | A retry records two plan operations: the repair that the evidence calls for, which step it reopens and which steps it adds, and the start of the recovery step |
| RunOutcome.FailureShowsInPlan | codeagentx/agent/completion.py:88-151 | A verifier error leaves the outcome step BLOCKED, a failed completion the final response step, and a retry leaves the recovery step at work or DONE |
| RunOutcome.CompletionRecords | codeagentx/agent/completion.py:83-171 | What a completion leaves in the state: its verdict, the policy report on the whole trajectory, the rollback of a failed verification, and the reflection on exactly these where reflection is on and the attempt failed |
| RunEnding.RunSucceedsExactly | codeagentx/agent/coordinator.py:109-190 | A run ends SUCCEEDED if and only if it reaches a turn, within both limits, whose response is final, whose verification did not fail, and at which no patch limit is breached |
| RunEnding.RunTimesOutExactly | codeagentx/agent/coordinator.py:109-190 | A run is stopped for its time if and only if it reaches a turn in which a clock reading that is looked at is at or past the deadline while the tool call cap is not reached |
| RunEnding.RunSpendsTurnsExactly | codeagentx/agent/coordinator.py:109-190 | A run is stopped for its turns if and only if it goes on after every turn it may have |
| RunEnding.RunKeepsDeadline | codeagentx/agent/coordinator.py:109-172 | No recorded model call begins at or past the deadline, and after every call but the last neither the reading behind the response nor the one behind the tools was |
| RunEnding.TurnExactly | codeagentx/agent/coordinator.py:109-172 | What one turn of a running task comes to, by its clock readings, its response and its verdict: success, going on, the provider's exception, and each budget reason, each exactly when |
| RunEnding.LimitExactly | codeagentx/agent/budget.py:74-89 | The tool call cap is reported exactly if it is reached, and otherwise the time limit exactly if it is not positive or the clock is at or past start + max_run_seconds |
| RunVerdicts.PolicyFailureIsFinal | codeagentx/agent/completion.py:114-151 | A run in which the patch policy failed once never ends SUCCEEDED, whatever retries follow |
| RunVerdicts.LoopRemembers | codeagentx/agent/completion.py:114-151 | The same from any turn on: a failed check in the past rules out success in the rest of the run |
| RunVerdicts.FatalVerdictsEndTheRun | codeagentx/agent/completion.py:119-151 | A critical policy violation or a rollback with failures happened in the last turn of the run, so no model call follows it, and the run FAILED |
| RunVerdicts.CompleteEffects | codeagentx/agent/completion.py:83-190 | What one completion records: the policy check on the whole trajectory, the rollback exactly on a failed verification with rollback on, and what a retry or a success implies about both |
| RunRollback.EveryRollbackRestoresStart | codeagentx/agent/completion.py:173-181 | In every run of write/edit calls and completions, a rollback without failures puts a workspace path back to its content or absence at the start of the run if and only if no failed transaction had harmed the path before it had a recorded patch (or the last such harm left what was there at the start); earlier rollbacks of the same patches make no difference; without I/O faults restored = attempted and failed = 0 |
| RunRollback.HarmlessRollbackRestoresStart | codeagentx/agent/completion.py:173-181 | With no harmful transaction before it, a rollback without failures restores the whole workspace |
| StrayRun.StrayFileRemains | codeagentx/agent/completion.py:173-181 | A run on the failing side of that boundary: a write to a new path is denied its replacement and fails to unlink, the failed verification's rollback is free of faults and failures, and the file is still there at the end |
| StrayRun.StrayHappens | codeagentx/patching/transaction.py:169-178 | From every start without the file and for every text such a run exists |
| RunRollback.RolledBackRunLeavesStart | codeagentx/agent/completion.py:119-151 | A run whose last turn rolled back without failures hands a workspace path back as the run found it if and only if the path was not harmed in that sense |
| RunRollback.ToolsUndoable | codeagentx/agent/turn.py:51-82 | Any batch of tool calls with clean transactions, failed and harmful ones included, keeps the baseline of the run recoverable from the recorded patches: the start, with what failed transactions left on paths that had no patch yet |
| RunTools.ExecuteExactly | codeagentx/agent/turn.py:84-100 | What a tool call observes, by its name and arguments: blocked or denied it is an error and changes nothing; a write leaves a patch exactly if the old text was readable and the I/O did not fail, and the file then holds the argument content; an edit leaves a patch exactly if the file is readable and old_string passes the guard, and then one occurrence of old_string has become new_string |
| RunTools.ExecuteIsLocal | codeagentx/agent/turn.py:84-100 | A tool call changes no file but the one the permission gate resolved, its temporary file and its backup |
| RunTools.BatchTells | codeagentx/agent/turn.py:51-82 | A batch records every call as one step with its observation, and answers it with its own output, in order |
| RunTools.ToolMoves | codeagentx/agent/plan.py:50-98 | A tool call moves the step of its tool to DONE, or to IN_PROGRESS on an error, unless it was DONE, and no other step: reading inspects, writing modifies, a test-like command verifies |
| RunConversation.RunSendsWindows | codeagentx/context.py:103-114 | Every message list sent to the provider starts with the user's message, and behind it each tool call is answered, id by id, by the next message, for every max_context_messages |
| RunConversation.RunSendsValidWire | codeagentx/models/deepseek_provider.py:104-131 | Every message list sent converts to a wire sequence in which each assistant turn is followed by exactly the answers to its calls |
| RunConversation.BatchAnswers | codeagentx/agent/turn.py:58-82 | The results of a batch answer the tool calls of the response in order, one by one |
| RunAnswers.RunSendsWhatHappened | codeagentx/agent/coordinator.py:109-172 | The i-th message list sent is the conversation before turn i, and every exchange in it is the response of one earlier turn with the outputs its tools gave, call by call, however often the window was trimmed |
| RunAnswers.SentCallIsAnswered | codeagentx/agent/coordinator.py:109-172 | Read off by position: the message behind a tool call in a sent list holds the outputs of the turn that made the call |
| RunConversation.OpeningSays | codeagentx/agent/coordinator.py:95-108 | The conversation starts with the task, the plan where planning is on, and the memory where there is any |
| RunPlans.PlanOfRun | codeagentx/agent/planner.py:93-113 | Over every run and any number of repairs plan step i has index i + 1 and all kinds differ; a run that returns SUCCEEDED exactly if every step is DONE |
| RunPlans.DoneIsLeftOnlyByBlockOrRepair | codeagentx/agent/plan.py:169-198 | A step DONE at some point of a run and not at its end was marked BLOCKED, or was the target of a repair, in between |
| RunPlans.OpenedPlanShows | codeagentx/agent/plan.py:31-48 | A run starts with the steps of the runtime plan, the first DONE, the second started and the rest pending |
| AgentRun.AgentLoop.Run | codeagentx/agent/loop.py:103-131 | A public run leaves objects whose view has all the run-wide guarantees: one terminal event, the accounting, success and timeout exactly when, plan complete exactly on success, final policy failures, windows only, honest answers, and rollbacks that restore their baseline; the trajectory has one step per counted tool call |
| AgentRun.RunIsGuaranteed | codeagentx/agent/loop.py:103-131 | The run-wide theorems, combined for one run |
| Patching.ExistingTargetIsAtomic | codeagentx/patching/transaction.py:157-191 | Whatever subset of I/O steps fails, as long as the copy back from the backup works, an existing target ends with its old text and an error or with the whole new text and a usable backup |
| Patching.NewTargetExactly | codeagentx/patching/transaction.py:157-191 | A failed apply leaves a new target in place exactly if the replacement was denied, the fallback left something at the target, and the fallback write or the unlink after it failed; a success leaves the whole text and no backup |
| Patching.OldTargetExactly | codeagentx/patching/transaction.py:157-191 | A failed apply leaves an existing target changed exactly if its backup was taken, the copy back failed too, and the fragment of that copy, or else what the failed fallback left, differs from the old text |
| Patching.FailsExactly | codeagentx/patching/transaction.py:157-191 | An apply raises exactly on the listed I/O outcomes |
| Patching.SuccessExactly | codeagentx/patching/transaction.py:157-191 | After a success the files are the old ones with the new text at the target, the old text in the backup if there was one, and no temporary file |
| Patching.RecordTells | codeagentx/patching/transaction.py:157-191 | The record of a success: whether the target existed, a backup that holds its old text, the byte counts of both texts in UTF-8, and the diff up to its limit |
| Patching.NewTargetCanBeStranded | codeagentx/patching/transaction.py:169-178 | The concrete failure: a new file survives an error when the unlink after the fallback write fails |
| Patching.AuxiliaryNamesAreNew | codeagentx/patching/transaction.py:243-248 | With an id that is a plain name neither the backup nor the temporary file is the target |
| Patching.SuffixExactly | codeagentx/patching/transaction.py:243-248 | The backup is named by the suffix of the target, from its last dot on, unless that dot is first or last |
| Patching.NoSuffix | codeagentx/patching/transaction.py:243-248 | Without a dot the suffix is .txt |
| Patching.StrayExactly | codeagentx/patching/transaction.py:157-191 | A failed apply changes the target exactly on I/O outcomes that can be read off before the call's result: a stranded new file, or an old file whose copy back failed |
| Patching.ApplyKeepsRecoverable | codeagentx/patching/transaction.py:157-191 | Applying a change, with success or not, keeps the baseline recoverable; a failure on a path without a recorded patch moves the baseline to what it left there, any other failure moves nothing |
| Patching.FailureExactly | codeagentx/patching/transaction.py:157-191 | A failed apply keeps the start recoverable if and only if it left its target alone or the target has a recorded patch |
| Patching.BaselineExactly | codeagentx/patching/rollback.py:43-71 | The baseline holds, path by path, what the last harmful attempt left there, or else the start |
| Patching.EarliestPatchWins | codeagentx/patching/rollback.py:54-62 | If restoring the earliest patch on a path worked, the path is back to what that patch found, whatever happened to the later ones |
| Patching.RollbackRestoresStart | codeagentx/patching/rollback.py:43-71 | Rolling back the whole trajectory with no failure restores every workspace file to the start, and leaves the start recoverable for what follows |
| Patching.RollbackWithoutFaults | codeagentx/patching/transaction.py:193-229 | Without I/O faults every recorded patch counts as restored, those already rolled back included |
| Patching.ReportStatus | codeagentx/patching/rollback.py:22-30 | The status of a rollback report: skipped, passed or failed exactly by what was restored |
| Patching.RollbackAppliedPatches | codeagentx/patching/rollback.py:43-71 | The reversed loop leaves the files and counts of the specification that rolls back newest first |
| Patching.Restore | codeagentx/patching/transaction.py:193-229 | Restoring one patch: from its backup, by removing a created file, or not at all |
| Patching.RestoreExactly | codeagentx/patching/transaction.py:193-229 | Restoring a patch works exactly if it can be restored and the I/O is smooth; the target is then its backup, or absent, and no other file changes |
| Patching.Change.ApplyTo | codeagentx/patching/transaction.py:157-191 | The apply with its fallback and best-effort rollback leaves the files the specification gives for each combination of I/O outcomes |
| Patching.Change.BestEffortRollback | codeagentx/patching/transaction.py:250-255 | The backup is copied over the target if it was taken and exists |
| FileTools.GuardMeansUniqueExactly | codeagentx/tools/file_edit.py:61-68 | The count == 1 guard means that old_string occurs once in every file if and only if old_string has no border |
| FileTools.GuardAdmitsOverlap | codeagentx/tools/file_edit.py:61-68 | The guard accepts "aa" in "aaa", where it occurs twice |
| FileTools.CountIsOneExactly | codeagentx/tools/file_edit.py:61-68 | What the guard means exactly: a first match, and none past its end |
| FileTools.EditRewritesOneMatch | codeagentx/tools/file_edit.py:70-90 | A successful edit rewrites one occurrence and nothing else of the file, and its record restores the text found |
| FileTools.TransactionIsAtomic | codeagentx/tools/file_write.py:33-51 | A write or edit of an existing file leaves the old text on error, and on success the whole new text with a record that undoes it |
| FileTools.ToolKeepsRecoverable | codeagentx/tools/file_write.py:33-51 | A tool's clean transaction, stray or not, keeps the baseline recoverable; only a failure on a path without a recorded patch moves it, to what it left there |
| FileTools.ExecuteEdit | codeagentx/tools/file_edit.py:45-90 | Missing file, empty pattern, unreadable file, no match and several matches change nothing; otherwise the transaction of the specification |
| FileTools.ExecuteWrite | codeagentx/tools/file_write.py:33-51 | The write tool performs the transaction of the specification |
| PatchPolicy.Evaluate | codeagentx/patching/policy.py:109-219 | The report of the loop, and: FAILED exactly on a breach of a limit, stated without reference to how it is checked |
| PatchPolicy.FailedExactly | codeagentx/patching/policy.py:270-278 | The computed status is FAILED exactly on a breach |
| PatchPolicy.VerdictExactly | codeagentx/patching/policy.py:270-278 | Skipped exactly without patches; FAILED exactly if the files or lines of all patches together, or some patch alone, is too much; a warning only with a truncated diff |
| PatchPolicy.ViolationExactly | codeagentx/patching/policy.py:109-219 | A violation is listed exactly if its rule is broken, by some patch or by the sums over all of them, and with the severity of its rule |
| PatchPolicy.LinesTell | codeagentx/patching/policy.py:109-219 | The changed lines that are compared with the limit are the added and deleted lines summed over all patches |
| PatchPolicy.BreachIsMonotone | codeagentx/patching/policy.py:109-219 | Appending patches never clears a failed verdict |
| PatchPolicy.CriticalExactly | codeagentx/patching/policy.py:138-144 | A critical violation is reported exactly for a forbidden path |
| PatchPolicy.DiffStats | codeagentx/patching/policy.py:257-267 | The counted lines are the added and deleted lines of the diff, headers aside |
| Conversation.Trim | codeagentx/context.py:37-65 | The greedy loop, its early return and its fallback compute the trimmed window of the specification |
| Conversation.TrimFillsWindow | codeagentx/context.py:37-65 | When the newest unit fits and messages are dropped, the length is limit or limit - 1, and the kept units are a suffix plus at most one older single message |
| Conversation.TrimToNewestUnit | codeagentx/context.py:47-49 | When it does not fit, exactly the pinned message and the newest unit are left |
| Conversation.TrimBounds | codeagentx/context.py:37-65 | Up to max_context_messages nothing is dropped; above, the length is the limit, one less, or 1 plus the newest unit if that does not fit |
| Conversation.TrimKeepsEnds | codeagentx/context.py:37-65 | The first and the newest message always stay |
| Conversation.TrimSelects | codeagentx/context.py:37-65 | Trimming is a subsequence of its input |
| Conversation.TrimSettles | codeagentx/context.py:37-65 | Trimming is idempotent |
| Conversation.RecentIsNotEmpty | codeagentx/context.py:59-64 | The last fallback of trim is never reached: the newest unit that fits is always selected |
| Conversation.MessageUnits | codeagentx/context.py:116-131 | The index loop groups each tool call with the result message behind it |
| Conversation.SelectUnits | codeagentx/context.py:45-58 | The selection loop over reversed units and the final reversal |
| Conversation.ConversationContext.Append | codeagentx/context.py:103-114 | Adding a message appends it and trims |
| Exchanges.AppendPlain | codeagentx/context.py:83-87 | A plain message keeps the window invariant through trimming |
| Exchanges.AppendCalls | codeagentx/context.py:86-87 | A response with tool calls opens an exchange at the end of a window |
| Exchanges.AppendResults | codeagentx/context.py:97-101 | Results for exactly those calls close it, and trimming never separates the two |
| Exchanges.PairedMeans | codeagentx/context.py:134-155 | The window invariant, position by position |
| Wire.WindowConvertsToValidWire | codeagentx/models/deepseek_provider.py:104-131 | Any window converts to a valid wire sequence |
| Wire.AnswersSay | codeagentx/models/deepseek_provider.py:210-220 | Tool results are answered one by one: the i-th answer has the id and the output of the i-th result |
| Wire.WindowSays | codeagentx/models/deepseek_provider.py:104-131 | What is sent for a conversation: the system prompt, then for each message in order its text under its role, its calls, or its results with their outputs |
| Wire.ExchangeSays | codeagentx/models/deepseek_provider.py:104-131 | In an exchange the i-th call of the assistant turn is answered by the output recorded for its id |
| Wire.DecodeAfterEncode | codeagentx/models/deepseek_provider.py:180-207 | Encoding content blocks and reading them back keeps every call and joins the texts |
| Wire.ResponseSurvives | codeagentx/models/deepseek_provider.py:148-177 | What is read from any reply survives re-encoding and re-reading unchanged |
| Wire.DecodesInOrder | codeagentx/models/deepseek_provider.py:148-177 | A reply is read call by call, in order |
| Wire.DecodesOne | codeagentx/models/deepseek_provider.py:148-177 | A call that is no dictionary is dropped, one without a function keeps its id only, and input comes only from an object, as such or encoded |
| Wire.TextsInOrder | codeagentx/models/deepseek_provider.py:180-207 | The texts of an assistant message are sent in the order of its blocks |
| Wire.CallsInOrder | codeagentx/models/deepseek_provider.py:180-207 | The calls of an assistant message are sent in the order of its blocks |
| Wire.ShownTextsTell | codeagentx/models/deepseek_provider.py:104-131 | Blocks sent as plain text show their texts and outputs, in place |
| Wire.EncodeAfterDecode | codeagentx/models/deepseek_provider.py:148-207 | A well-formed reply is sent back verbatim |
| Wire.ToOpenAiMessages | codeagentx/models/deepseek_provider.py:104-131 | The conversion loop: the system prompt, then for each message in order its text, calls or outputs |
| Wire.ToAssistantMessage | codeagentx/models/deepseek_provider.py:180-207 | The block loop collects texts and calls in order |
| Wire.ToToolResultMessages | codeagentx/models/deepseek_provider.py:210-220 | The block loop emits one answer per tool result, in order; the answers to results alone have their ids and their outputs |
| Wire.ToModelResponse | codeagentx/models/deepseek_provider.py:148-177 | The reply loop rebuilds the content blocks, malformed calls included |
| HttpRetry.PostWithRetries | codeagentx/models/deepseek_provider.py:83-101 | At most max_retries + 1 posts; the first success, or the first non-retryable or else the last error; after k retried failures exactly backoff * (2^k - 1) slept |
| HttpRetry.WaitIsBounded | codeagentx/models/deepseek_provider.py:83-101 | The whole wait is at most backoff * (2^max_retries - 1) |
| HttpRetry.RetryableStatuses | codeagentx/models/deepseek_provider.py:263-266 | Which HTTP statuses are retried: 408, 409, 429, 500 and 502 to 504 among the client and server errors, and none outside of them |
| Reflection.RetryableExactly | codeagentx/reflection/failure.py:395-406 | A report is retryable exactly without sandbox refusal, critical policy violation and failed rollback |
| Reflection.StrategyNeverStops | codeagentx/reflection/strategy.py:79-103 | For every report of the reflector the strategy retries exactly if the report is retryable: its second stop branch is unreachable |
| Reflection.RetryExactly | codeagentx/reflection/retry.py:66-148 | With retry budget left, and the matrix on or off, the decision is RETRY exactly if the report is retryable |
| Reflection.InterventionIsNeverRetried | codeagentx/reflection/retry.py:98-118 | A critical violation or failed rollback is never retried, whatever the budget |
| Reflection.ForeignReportReachesStop | codeagentx/reflection/strategy.py:92-103 | A report not made by the reflector can reach the stop branch |
| Reflection.Reflect | codeagentx/reflection/failure.py:74-105 | The signal builders in order, with the fallback signal, give the specified report |
| Evidence.CategoryExactly | codeagentx/reflection/failure.py:74-312 | The reflector finds a category exactly if the evidence shows it: a failed check of its kind, counted test failures, a breached policy, a failed step, no progress, an incomplete rollback |
| Evidence.StrategyAnswers | codeagentx/reflection/strategy.py:50-171 | The strategy for a retryable report is the first in order whose evidence is there, and its actions are the context action followed by those of the strategy, without repetition |
| Evidence.RepairAnswers | codeagentx/agent/planner.py:298-310 | A retry reopens the step its evidence points to, with the matrix and without |
| Evidence.RepairSteps | codeagentx/agent/planner.py:249-284 | A retry adds its repair actions as steps under kinds of that retry |
| Planning.RepairKeepsPlanOk | codeagentx/agent/planner.py:149-159 | The steps of the next repair have new kinds and the next indexes |
| Planning.RepairKindInjective | codeagentx/agent/planner.py:149-159 | Kinds of repairs with different numbers or actions differ |
| Planning.RuntimePlanOk | codeagentx/agent/planner.py:192-246 | The initial plan is well formed and has verification and final response steps |
| Planning.DoneIsLeftExactly | codeagentx/agent/plan.py:169-198 | An operation takes a step out of DONE exactly by blocking it or making it the target of a repair |
| Planning.DoneStaysDone | codeagentx/agent/plan.py:169-198 | The same over any sequence of operations |
| Planning.VerificationSettles | codeagentx/agent/plan.py:100-130 | A report's verdicts stand in the plan afterwards: a failure blocks its step even if it was DONE, any other verdict makes it DONE, and no other step changes |
| Planning.RepairSettles | codeagentx/agent/completion.py:292-306 | A repair puts its target in progress, whatever its status, appends its kinds as pending steps with the next indexes, and changes no other step |
| Planning.CompletionSettles | codeagentx/agent/plan.py:132-140 | Completing the plan makes every step DONE with the evidence, except those that were DONE |
| Planning.RuntimePlanSteps | codeagentx/agent/planner.py:192-246 | The runtime plan has a step for constraints exactly if there are some and one for recovery exactly if retries are allowed, three fixed steps first and the final response last |
| Planning.RepairActionsAre | codeagentx/agent/planner.py:149-159 | One to six actions: a prefix of the given ones, or "recover" if there are none |
| Planning.TaskPlan.SetPlanStep | codeagentx/agent/plan.py:169-198 | The guarded update on the step objects does what the specification says of their view |
| Planning.TaskPlan.AddStepItems | codeagentx/agent/planner.py:100-110 | Appended step objects get the next indexes |
| Planning.TaskPlan.StepByKind | codeagentx/agent/planner.py:93-98 | The first step of a kind, or none |
| Planning.TaskPlan.Complete | codeagentx/agent/plan.py:132-140 | Every step that is not DONE becomes DONE |
| Planning.TaskPlan.ReopenStep | codeagentx/agent/completion.py:297-301 | The target of a repair is set to IN_PROGRESS whatever its status |
| Planning.ToPlanItems | codeagentx/agent/planner.py:149-159 | The first six actions, or "recover", as kinds of the retry |
| Runtime.RunCoordinator.Run | codeagentx/agent/coordinator.py:67-93 | The coordinator's run over mutable state, budget, conversation, plan and files does what the run specification says of their view |
| Runtime.RunCoordinator.RunTurns | codeagentx/agent/coordinator.py:109-190 | The turn loop with its returns, break and else branch |
| Runtime.RunCoordinator.Turn | codeagentx/agent/coordinator.py:109-172 | One turn: the three budget checks, provider failure, tools or completion |
| Runtime.RunCoordinator.FailForBudget | codeagentx/agent/coordinator.py:206-233 | The budget exit marks the budget, the status, the plan and the event |
| Runtime.RunCoordinator.FailForTurns | codeagentx/agent/coordinator.py:173-190 | The exit after the last permitted turn |
| Runtime.RunCoordinator.ParseResponse | codeagentx/agent/model_turn.py:66-92 | The tool calls and the texts of a response, each in order |
| Runtime.CompletionController.Complete | codeagentx/agent/completion.py:83-171 | Verifier failure, policy, rollback, reflection, retry or success, in the order of the specification; for a running task SUCCEEDED, FAILED or a retry exactly as CompletionExactly says, read off the objects before the call and the verdict |
| Runtime.CompletionController.EvaluatePatchPolicy | codeagentx/agent/completion.py:183-190 | The policy runs on the patches of the whole trajectory |
| Runtime.CompletionController.RollbackAfterFailedVerification | codeagentx/agent/completion.py:173-181 | The rollback covers every recorded patch and its report replaces the last one |
| Runtime.CompletionController.ScheduleReflectionRetry | codeagentx/agent/completion.py:205-290 | Returns true exactly if reflection is on, a retry is left and no evidence rules it out; and what it changes: plan repair, retry report, plan step, prompt |
| Runtime.CompletionController.ApplyPlanRepair | codeagentx/agent/completion.py:292-306 | A repair reopens its target and appends its steps |
| Runtime.TurnRunner.ExecuteToolCalls | codeagentx/agent/turn.py:51-82 | Every call is executed, recorded and answered in order, and the answers form one message |
| Runtime.TurnRunner.ExecuteAction | codeagentx/agent/turn.py:84-100 | Guidance block, permission denial, then the tool: the files and the observation are what ExecuteExactly says for the name and the arguments of the call |
| Runtime.PlanController.Initialize | codeagentx/agent/plan.py:31-48 | The plan is created and shown, its first step DONE and its second started |
| Runtime.PlanController.UpdateFromToolObservation | codeagentx/agent/plan.py:50-98 | Which step a tool result starts or completes |
| Runtime.PlanController.UpdateFromVerification | codeagentx/agent/plan.py:100-130 | The branches on the constraint status and the report's status mark the plan steps as VerificationSettles says: constraint and outcome step BLOCKED on a failure, DONE on a pass (a skipped constraint check included), every other step as it was |
| Runtime.RunBudget.LimitReached | codeagentx/agent/budget.py:74-89 | The tool call cap if it is reached, or else the time limit exactly if the clock is at or past start + max_run_seconds, stated on the clock readings alone |
| Runtime.RunBudget.BeginTurn | codeagentx/agent/budget.py:44-49 | A turn is counted unless a limit is reached |
| Runtime.RunBudget.MarkExhausted | codeagentx/agent/budget.py:68-72 | The first reason stays |
| Runtime.AgentState.ReflectionRetryCount | codeagentx/agent/state.py:178-182 | The number of reports with status retry |
| Runtime.AgentState.AddStep | codeagentx/agent/state.py:184-193 | A step is appended and a pending state starts |
| RunTypes.PatchMetadataFromState | codeagentx/agent/completion.py:324-332 | The patches of the steps that are not errors, in order |
| JsComments.LinewiseIsOnePass | codeagentx/context_engine/ast_index.py:746-765 | Stripping line by line with the carried flag equals one pass of a three-state automaton over the newline-joined source |
| JsComments.StripJsComments | codeagentx/context_engine/ast_index.py:746-765 | The index loop computes the stripped line and flag |
| JsComments.StrippedLineIsALine | codeagentx/context_engine/ast_index.py:530-533 | A stripped line holds no line break, so line numbers are kept |
| JsScopes.StackIsAlivePushes | codeagentx/context_engine/ast_index.py:676-695 | A scope is on the stack exactly if its line opened more braces than it closed and the depth has stayed at or above its body since |
| JsScopes.DeclareExactly | codeagentx/context_engine/ast_index.py:556-639 | What one line pushes: the scopes it declares in its surroundings, classes first, all with the body depth of the line; a blank line pushes nothing |
| JsScopes.PushDepths | codeagentx/context_engine/ast_index.py:676-688 | Every scope ever pushed has the body depth of its own line at the brace depth before it |
| JsScopes.KeptScopes | codeagentx/context_engine/ast_index.py:690-695 | The update of a line moves the depth by its balance and keeps exactly a prefix of the stack: all that is not deeper than that, and nothing that is |
| JsScopes.FilterPrefix | codeagentx/context_engine/ast_index.py:690-695 | Body depths are nondecreasing, so popping from the top equals a filter |
| JsScopes.PopKeepsClasses | codeagentx/context_engine/ast_index.py:690-695 | Matching class scopes by value never pops one that is kept |
| JsScopes.Collector.PopScopes | codeagentx/context_engine/ast_index.py:690-695 | The pop loop leaves the kept scopes, and of the class stack exactly their class scopes |
| JsScopes.Collector.CollectSymbols | codeagentx/context_engine/ast_index.py:556-639 | The pushes of one line, each guard read after the pushes before it |
| JsScopes.Collector.Collect | codeagentx/context_engine/ast_index.py:530-543 | After any source the stacks are the alive scopes and the alive class scopes |
| JsSource.StackOfSource | codeagentx/context_engine/ast_index.py:530-543 | For any source text: the comment-free lines are one automaton pass over the source, and the scopes on the stack are exactly those whose line has a positive brace balance and whose body depth the balance of the comment-free text has not fallen below since |
| JsSource.StackIsOpenLines | codeagentx/context_engine/ast_index.py:530-543 | Written on the text alone: on the stack are the scopes of lines that open more braces than they close and whose own balance no later line end falls below |
| JsSource.CollectSource | codeagentx/context_engine/ast_index.py:530-543 | The loop over the source lines, with the comment flag carried on, leaves the frame of the comment-free lines |
| JsSource.StripKeepsBraces | codeagentx/context_engine/ast_index.py:683-695 | The body depth counts braces in the stripped line and the depth update in the whole line; the counts agree |
| Fingerprint.StreamIsUniquelyDecodable | codeagentx/sandbox/artifacts.py:99-106 | Equal digest streams come from equal lists of path, size and hash, when every name decodes (no path holds a surrogate) and, as file systems guarantee, no path holds a NUL |
| Fingerprint.SameStreamExactly | codeagentx/sandbox/artifacts.py:99-106 | In general two lists of files have one stream if and only if they have the same sizes and hashes in order, and paths that differ only in lone surrogates against question marks |
| Fingerprint.SurrogateConfuses | codeagentx/sandbox/artifacts.py:99-106 | The concrete failure: a file named by the byte 0xFF and a file named "?" with the same content have one stream |
| Fingerprint.StreamTellsExactly | codeagentx/sandbox/artifacts.py:99-106 | No other list of files shares a list's stream if and only if none of its paths holds a surrogate or a question mark |
| Utf8.EncodeExactly | codeagentx/sandbox/artifacts.py:101-101 | UTF-8 with errors="replace" identifies two texts if and only if they agree after every surrogate is a question mark |
| Utf8.LengthIsBytes | codeagentx/patching/transaction.py:185-186 | The byte counts recorded with a patch are the lengths of the encodings of its texts |
| Fingerprint.SnapshotWorkspace | codeagentx/sandbox/artifacts.py:81-113 | The loop covers a prefix of the walk, and file_count = fingerprinted + errors + (1 if truncated) on every exit |
| Fingerprint.SameStreamSameFiles | codeagentx/sandbox/artifacts.py:81-113 | Two snapshots with one stream have the same counts, sizes and hashes, and paths and raw records that agree up to surrogates against question marks; where every name decodes, the same files and records |
| Retriever.ScoreRecord | codeagentx/memory/retriever.py:163-180 | The score is the sum over query terms of accumulated weights, plus the language bonus |
| Retriever.ExchangeSums | codeagentx/memory/retriever.py:183-201 | That sum equals the sum over fields of weight times matched occurrences |
| Retriever.AddTerms | codeagentx/memory/retriever.py:231-233 | One call adds its weight per occurrence and leaves other terms alone |
| Retriever.Retrieve | codeagentx/memory/retriever.py:99-160 | The hits are the relevant records above the threshold, best first, with none left out that precedes a listed one; candidates = kept + filtered |
| Retriever.SelectionIsTopK | codeagentx/memory/retriever.py:122-131 | For every limit the selected hits are the best above the threshold, as many as the slice takes, a negative limit counting from the end |
| Retriever.RetrieveLists | codeagentx/memory/retriever.py:99-160 | Listed are records with their own score, relevant and above the threshold, in order; every other such record comes after all the listed ones |
| Retriever.CandidatesExactly | codeagentx/memory/retriever.py:108-127 | The candidates are exactly the relevant records with their scores, as often as they are stored |
| Retriever.ScoreByField | codeagentx/memory/retriever.py:163-201 | The score written out field by field: the weights times the matches in each field, and 20 for a known language named in the query |
| Retriever.LimitInForce | codeagentx/memory/retriever.py:130-130 | The limit is the given one, or the default, or 3, the first that is not zero |
| Ranking.AddCandidate | codeagentx/context_engine/ranking.py:296-330 | One contribution keeps the accumulator equal to the grouped evidence: score sum, sources, reasons, and the merge of snippet, end_line and metadata |
| Ranking.Accumulate | codeagentx/context_engine/ranking.py:296-330 | The accumulator groups all evidence by key |
| Ranking.AccumulationIsOrderFree | codeagentx/context_engine/ranking.py:296-330 | Keys, scores and sources do not depend on the order of the evidence |
| Ranking.Rank | codeagentx/context_engine/ranking.py:221-228 | Accumulating the evidence and ranking gives the sliced ranked list of the specification |
| Ranking.RankedIsBest | codeagentx/context_engine/ranking.py:221-228 | For every limit the list is sorted, each entry is what the evidence of its key adds up to, and no key left out ranks before a listed one |
| Ranking.RankedByFields | codeagentx/context_engine/ranking.py:221-228 | The list is in order of score, path, line and name, nothing left out would come before a listed entry, and sorting neither adds nor drops candidates |
| Ranking.FirstIsFirst | codeagentx/context_engine/ranking.py:309-320 | Path, line, name and kind of an entry are those of the first evidence of its key |
| Ranking.SnippetIsFirst | codeagentx/context_engine/ranking.py:326-327 | The snippet of an entry is the first of its evidence that is not empty |
| Ranking.MetadataIsLast | codeagentx/context_engine/ranking.py:328-330 | Each metadata entry is the one of the last evidence that has it |
| Ranking.ReasonsAreThose | codeagentx/context_engine/ranking.py:324-325 | The reasons are those of its evidence, each once, and no empty one |
| Ranking.SameRankingExactly | codeagentx/context_engine/ranking.py:221-228 | Two orders of the same evidence rank the keys alike if and only if they agree on every pair of keys |
| Ranking.OrderShowsInTiesOnly | codeagentx/context_engine/ranking.py:221-228 | Two orders of the same evidence rank alike if and only if every two keys of equal score, path and line stand in the same order, which depends only on whether a key's first evidence has a symbol name and, between two without, on which appeared first |
| RunStore.EventsArePrefix | codeagentx/service/runtime_api.py:148-191 | In every interleaving a run's events are a prefix of queued, started and one end; its status is the reported one or one step ahead |
| RunStore.StatusOnlyAdvances | codeagentx/service/runtime_api.py:103-118 | A status never goes back, a terminal one never changes, and events are only appended |
| RunStore.StepIsLocal | codeagentx/service/runtime_api.py:103-118 | No step alters another run's record |
| RunStore.OwnStepsDecide | codeagentx/service/runtime_api.py:133-191 | A run's own steps alone lead it to the same record, whatever runs beside it |
| RunStore.RunStore.Create | codeagentx/service/runtime_api.py:92-97 | A new record with its queued event, and nothing else changed |
| RunStore.RunStore.Update | codeagentx/service/runtime_api.py:103-109 | The status of one record changes, and a missing id changes nothing |
| RunStore.RunStore.AddEventTo | codeagentx/service/runtime_api.py:111-118 | One event is appended to one record |
| RunStore.RunStore.RunAgent | codeagentx/service/runtime_api.py:148-191 | The four store calls of an uninterrupted run thread |

## Left out

- RunRollback.EveryRollbackRestoresStart: assumes clean transactions as described above, for the transactions before the rollback; edits that bash commands make to files, created directories, leftover temporary files, undecodable bytes and newline translation are not part of the file model.
- RunConversation.RunSendsValidWire: assumes that a response holds no tool_result blocks, which is what the provider adapter produces.
- Runtime.RunCoordinator.Run: requires the fresh conversation and state that each public run starts from; `AgentRun.AgentLoop.Run` supplies them.
- KeyboardInterrupt and the cancelled status: an interrupted run does not return.
- Texts: prompts, summaries, placeholder final texts, plan step descriptions, and the variable parts of plan evidence; timestamps and token counts.
- Retry guidance for tools: whether guidance blocks a call is an answer of the environment, and so are permission decisions.
- Verifier internals: a verdict is an answer of the environment, given as a report of checks or as an exception.
- Regular expressions, glob matching, difflib, SHA-256, JSON text, tokenising, path normalisation and fresh identifiers: parameters or values.
- Ranking: how the query terms and the evidence are collected from the index.
- Memory retrieval: how query terms are built, the reasons of a hit and the status text; memory extraction after success.
- JS/TS imports, calls and symbol records: only the scope stack they hang on.
- The time spent on model calls and tools is seen by the budget through clock readings only.
- HTTP handlers, command line, benchmarks, reports, git and container subprocesses: plumbing around the core.
