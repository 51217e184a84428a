// The run engine as a function of what its environment answers: model responses,
// verifier verdicts, tool and I/O outcomes, and clock readings.
module RunSpec {
  import opened Text
  import opened Conversation
  import opened Patching
  import opened FileTools
  import opened PatchPolicy
  import opened RunTypes
  import opened Reflection
  import opened Planning

  datatype Config = Config(
    maxTurns: int, maxToolCalls: Option<int>, maxRunSeconds: Option<real>, maxContextMessages: int,
    maxRetries: int, planning: bool, hasConstraints: bool, looksLikeTest: Input -> bool,
    policyOn: bool, limits: Limits, reflectionOn: bool, autoRollback: bool, rankingOn: bool, matrix: bool)

  // ---------------------------------------------------------------------
  // What the environment answers
  // ---------------------------------------------------------------------

  /** gate: the path the permission gate resolved, None when it denies the call. */
  datatype ToolOracle = ToolOracle(blocked: bool, gate: Option<Path>, io: ToolIo, fails: bool, output: string)

  /** verdict: None when the verifier raises. */
  datatype CompletionOracle = CompletionOracle(
    verdict: Option<VerificationReport>, error: string, summary: string,
    restore: nat -> RestoreIo, ranked: bool, prompt: string)

  /** response: None when the provider raises. */
  datatype TurnOracle = TurnOracle(
    beginClock: real, response: Option<seq<Block>>, responseClock: real,
    tools: nat -> ToolOracle, toolsClock: real, completion: CompletionOracle)

  datatype Opening = Opening(task: string, planMessage: string, memory: string, clock: real)

  // ---------------------------------------------------------------------
  // The state of a run
  // ---------------------------------------------------------------------

  datatype Reason = MaxToolCalls | MaxRunTime | MaxTurns

  datatype Budget = Budget(startedAt: real, turns: nat, toolCalls: nat, exhausted: Option<Reason>)

  datatype PolicyCheck = PolicyCheck(turn: nat, failed: bool, critical: bool)

  /** after: the number of attempts before it; smooth: no I/O fault while restoring; files: what the rollback left. */
  datatype Rollback = Rollback(turn: nat, after: nat, smooth: bool, files: Files, report: RollbackReport)

  datatype Batch = Batch(before: nat, size: nat)

  /** The recorded events of a run, by kind; ends has true for task_finished, false for task_failed. */
  datatype Journal = Journal(
    models: seq<seq<Message>>, batches: seq<Batch>, attempts: seq<Attempt>, verifications: nat,
    policies: seq<PolicyCheck>, rollbacks: seq<Rollback>, ends: seq<bool>, closings: nat)

  datatype Engine = Engine(
    status: TaskStatus, plan: Option<PlanView>, planOps: seq<PlanOp>, trajectory: seq<Step>,
    verification: Option<VerificationReport>, policy: Option<PolicyReport>, rollback: Option<RollbackReport>,
    reflection: Option<ReflectionReport>, retries: seq<Decision>, budget: Budget,
    messages: seq<Message>, files: Files, journal: Journal)

  datatype Outcome = Continue | Returned | Raised

  // ---------------------------------------------------------------------
  // Small steps
  // ---------------------------------------------------------------------

  function Plan(e: Engine, op: PlanOp): Engine
  {
    if e.plan.None? then e
    else e.(plan := Some(PlanAfter(e.plan.value, op)), planOps := e.planOps + [op])
  }

  function Say(cfg: Config, e: Engine, m: Message): Engine
  {
    e.(messages := Trimmed(cfg.maxContextMessages, e.messages + [m]))
  }

  function End(e: Engine, finished: bool): Engine
  {
    e.(journal := e.journal.(ends := e.journal.ends + [finished]))
  }

  function MaxReal(a: real, b: real): real { if a < b then b else a }
  function MaxInt(a: int, b: int): int { if a < b then b else a }

  /** RunBudget.limit_reason */
  function LimitReason(cfg: Config, b: Budget, clock: real): Option<Reason>
  {
    if cfg.maxToolCalls.Some? && b.toolCalls >= MaxInt(0, cfg.maxToolCalls.value) then Some(MaxToolCalls)
    else if cfg.maxRunSeconds.Some? && MaxReal(0.0, clock - b.startedAt) >= MaxReal(0.0, cfg.maxRunSeconds.value)
    then Some(MaxRunTime)
    else None
  }

  function Exhaust(e: Engine, reason: Reason): Engine
  {
    if e.budget.exhausted.Some? then e else e.(budget := e.budget.(exhausted := Some(reason)))
  }

  function FailForBudget(e: Engine, reason: Reason, text: string): Engine
  {
    End(Plan(Exhaust(e, reason).(status := TaskFailed), Mark(FINAL_RESPONSE, Blocked, text)), false)
  }

  function ReasonText(reason: Reason): string
  {
    match reason
    case MaxToolCalls => "max tool calls reached"
    case MaxRunTime => "max run time reached"
    case MaxTurns => "max turns reached without a final response"
  }

  // ---------------------------------------------------------------------
  // Tool calls
  // ---------------------------------------------------------------------

  datatype Call = Call(id: string, name: string, input: Input)

  /** The tool calls of a response, as parse_response collects them. */
  function CallsOf(blocks: seq<Block>): seq<Call>
  {
    if blocks == [] then []
    else
      var b := blocks[|blocks| - 1];
      CallsOf(blocks[..|blocks| - 1]) + if b.ToolUse? then [Call(b.id, b.name, b.input)] else []
  }

  /** The texts of a response, empty ones included. */
  function TextsOf(blocks: seq<Block>): seq<string>
  {
    if blocks == [] then []
    else
      var b := blocks[|blocks| - 1];
      TextsOf(blocks[..|blocks| - 1]) + if b.TextBlock? then [b.text] else []
  }

  datatype Observed = Observed(files: Files, isError: bool, patch: Option<PatchRecord>, attempt: Option<Attempt>)

  function Observe(out: ToolOutcome): Observed
  {
    Observed(out.files, out.patch.None?, out.patch, out.attempt)
  }

  function Get(input: Input, key: string): string
  {
    if key in input then input[key] else ""
  }

  /** The guidance check, the permission gate, then the tool. */
  function Execute(files: Files, call: Call, o: ToolOracle): Observed
  {
    if o.blocked || o.gate.None? then Observed(files, true, None, None)
    else if call.name !in ["write_file", "edit_file"] then Observed(files, o.fails, None, None)
    else if "path" !in call.input then Observed(files, true, None, None)
    else Observe(FileTool(files, o.gate.value, call, o.io))
  }

  function FileTool(files: Files, path: Path, call: Call, io: ToolIo): ToolOutcome
  {
    if call.name == "write_file" then WriteFile(files, path, Get(call.input, "content"), io)
    else EditFile(files, path, Get(call.input, "old_string"), Get(call.input, "new_string"), io)
  }

  function ToolEvidence(call: Call, patch: Option<PatchRecord>): string
  {
    if patch.Some? && patch.value.path != "" then call.name + " changed " + patch.value.path
    else if Get(call.input, "path") != "" then call.name + " used path " + Get(call.input, "path")
    else if Get(call.input, "command") != "" then call.name + " ran command " + Get(call.input, "command")
    else call.name + " completed"
  }

  /** PlanController.update_from_tool_observation */
  function ToolMark(cfg: Config, call: Call, out: Observed): Option<PlanOp>
  {
    var step :=
      if call.name in ["read_file", "grep", "glob", "ast_context"] then Some(INSPECT_CONTEXT)
      else if call.name in ["write_file", "edit_file"] then Some(MODIFY_WORKSPACE)
      else if call.name == "bash" && cfg.looksLikeTest(call.input) then Some(VERIFY_OUTCOME)
      else None;
    if step.None? then None
    else if out.isError then Some(Mark(step.value, InProgress,
      if call.name == "bash" then "test-like bash command returned an error" else call.name + " returned an error"))
    else Some(Mark(step.value, Done, ToolEvidence(call, out.patch)))
  }

  function Noted(e: Engine, call: Call, out: Observed): Engine
  {
    e.(files := out.files,
       trajectory := e.trajectory + [Step(call.name, call.input, out.isError, out.patch)],
       journal := e.journal.(attempts := e.journal.attempts + if out.attempt.Some? then [out.attempt.value] else []))
  }

  function PlanIf(e: Engine, op: Option<PlanOp>): Engine
  {
    if op.Some? then Plan(e, op.value) else e
  }

  function OneTool(cfg: Config, e: Engine, call: Call, o: ToolOracle): Engine
  {
    var out := Execute(e.files, call, o);
    PlanIf(Noted(e, call, out), ToolMark(cfg, call, out))
  }

  /** State and tool results after the first k calls of a batch. */
  function ToolsAfter(cfg: Config, e: Engine, calls: seq<Call>, tools: nat -> ToolOracle, k: nat): (Engine, seq<Block>)
    requires k <= |calls|
  {
    if k == 0 then (e, [])
    else
      var (p, results) := ToolsAfter(cfg, e, calls, tools, k - 1);
      var call, o := calls[k - 1], tools(k - 1);
      (OneTool(cfg, p, call, o),
       results + [ToolResult(call.id, o.output, Execute(p.files, call, o).isError)])
  }

  function AfterBatch(cfg: Config, e: Engine, calls: seq<Call>, tools: nat -> ToolOracle): Engine
  {
    var (p, results) := ToolsAfter(cfg, e, calls, tools, |calls|);
    var q := Say(cfg, p, Message(User, Blocks(results)));
    q.(budget := q.budget.(toolCalls := q.budget.toolCalls + |calls|),
       journal := q.journal.(batches := q.journal.batches + [Batch(q.budget.toolCalls, |calls|)]))
  }

  // ---------------------------------------------------------------------
  // Completion
  // ---------------------------------------------------------------------

  /** Plan operations, one after the other. */
  function PlanAll(e: Engine, ops: seq<PlanOp>): Engine
  {
    if ops == [] then e else Plan(PlanAll(e, ops[..|ops| - 1]), ops[|ops| - 1])
  }

  function Verifying(e: Engine): Engine
  {
    var e1 := Plan(e, Mark(VERIFY_OUTCOME, InProgress, "model returned a final response"));
    e1.(journal := e1.journal.(verifications := e1.journal.verifications + 1))
  }

  function Verified(e: Engine, r: VerificationReport): Engine
  {
    PlanAll(e.(verification := Some(r)), VerificationMarks(r))
  }

  /** The journal entry of a policy report. */
  ghost function CheckFor(turn: nat, report: PolicyReport): PolicyCheck
  {
    PolicyCheck(turn, report.status == Failed, CriticalPolicy(Some(report)))
  }

  ghost function WithPolicy(e: Engine, report: PolicyReport): Engine
  {
    e.(policy := Some(report), journal := e.journal.(
      policies := e.journal.policies + [CheckFor(e.budget.turns, report)]))
  }

  ghost function PolicyEvaluated(cfg: Config, e: Engine): Engine
  {
    if cfg.policyOn then WithPolicy(e, Evaluated(cfg.limits, PatchesOf(e.trajectory))) else e
  }

  /** The state the verdicts on this attempt are read from. */
  ghost function Judged(cfg: Config, e: Engine, r: VerificationReport): Engine
  {
    PolicyEvaluated(cfg, Verified(Verifying(e), r))
  }

  predicate PolicyFailed(cfg: Config, e: Engine)
  {
    cfg.policyOn && e.policy.Some? && e.policy.value.status == Failed
  }

  function WithRollback(e: Engine, r: Rollback): Engine
  {
    e.(files := r.files, rollback := Some(r.report), journal := e.journal.(rollbacks := e.journal.rollbacks + [r]))
  }

  ghost predicate IsSmooth(restore: nat -> RestoreIo, n: nat)
  {
    forall i | 0 <= i < n :: restore(i).Smooth?
  }

  /** The rollback of every recorded patch, and its journal entry. */
  ghost function RollbackOf(e: Engine, restore: nat -> RestoreIo): Rollback
  {
    var patches := PatchesOf(e.trajectory);
    var (files, results) := RollbackAll(e.files, patches, restore);
    Rollback(e.budget.turns, |e.journal.attempts|, IsSmooth(restore, |patches|), files, ReportOf(results))
  }

  ghost function RolledBack(e: Engine, restore: nat -> RestoreIo): Engine
  {
    WithRollback(e, RollbackOf(e, restore))
  }

  function ReportFor(cfg: Config, e: Engine): Option<ReflectionReport>
  {
    if cfg.reflectionOn then Some(Reflected(e.verification, e.policy, e.trajectory, e.rollback)) else None
  }

  function Reflecting(cfg: Config, e: Engine): Engine
  {
    if cfg.reflectionOn then e.(reflection := ReportFor(cfg, e)) else e
  }

  /** AgentState.reflection_retry_count */
  function RetryCount(retries: seq<Decision>): nat
  {
    if retries == [] then 0
    else RetryCount(retries[..|retries| - 1]) + if retries[|retries| - 1].status == Retry then 1 else 0
  }

  function DecisionFor(cfg: Config, e: Engine, o: CompletionOracle): Decision
  {
    var report := ReportFor(cfg, e);
    var attempted := RetryCount(e.retries);
    var ranked := cfg.rankingOn && report.Some? && report.value.retryable && attempted < cfg.maxRetries && o.ranked;
    Decide(report, attempted, cfg.maxRetries, ranked, cfg.matrix)
  }

  function Repaired(cfg: Config, e: Engine, op: PlanOp): Engine
  {
    if cfg.planning then Plan(e, op) else e
  }

  function Prompted(cfg: Config, e: Engine, d: Decision, prompt: string): Engine
  {
    Say(cfg, Plan(e.(retries := e.retries + [d]),
                  Mark(RECOVER_FAILURE, InProgress, "reflection report is retryable and budget remains")),
        Message(User, Plain(prompt)))
  }

  /** A retry: the plan is repaired, the decision recorded, and the model prompted again. */
  function Retrying(cfg: Config, e: Engine, d: Decision, prompt: string): Engine
  {
    Prompted(cfg, Repaired(cfg, e, RepairOf(d)), d, prompt)
  }

  function StopText(status: DecisionStatus): string
  {
    match status
    case NoReflection => "no reflection report is available"
    case NonRetryable => "the failure is not retryable"
    case Exhausted => "reflection retry budget exhausted"
    case _ => ""
  }

  function Stopping(e: Engine, d: Decision): Engine
  {
    Plan(e.(retries := e.retries + [d]), Mark(RECOVER_FAILURE, Blocked, StopText(d.status)))
  }

  /** schedule_reflection_retry; true when a retry was scheduled. */
  function Scheduled(cfg: Config, e: Engine, o: CompletionOracle): (Engine, bool)
  {
    if cfg.maxRetries <= 0 then (e, false)
    else
      var d := DecisionFor(cfg, e, o);
      if d.status == Retry then (Retrying(cfg, e, d, o.prompt), true) else (Stopping(e, d), false)
  }

  function FailedBy(e: Engine, op: PlanOp): Engine
  {
    Plan(e.(status := TaskFailed), op)
  }

  function VerifierError(cfg: Config, e: Engine, error: string): Engine
  {
    End(Reflecting(cfg, FailedBy(e, Mark(VERIFY_OUTCOME, Blocked, error))), false)
  }

  ghost function AfterFailure(cfg: Config, e: Engine, verificationFailed: bool, o: CompletionOracle): (Engine, bool)
  {
    var e1 := if verificationFailed && cfg.autoRollback then RolledBack(e, o.restore) else e;
    RetriedOrFailed(cfg, Reflecting(cfg, e1), o)
  }

  function RetriedOrFailed(cfg: Config, e: Engine, o: CompletionOracle): (Engine, bool)
  {
    var (e1, scheduled) := Scheduled(cfg, e, o);
    if scheduled then (e1, false)
    else (End(FailedBy(e1, Mark(FINAL_RESPONSE, Blocked, o.summary)), false), true)
  }

  function Succeeded(e: Engine): Engine
  {
    End(Plan(e.(status := TaskSucceeded), CompleteAll("task finished successfully")), true)
  }

  /** CompletionController.complete; true when the run is over. */
  ghost function Complete(cfg: Config, e: Engine, o: CompletionOracle): (Engine, bool)
  {
    if o.verdict.None? then (VerifierError(cfg, Verifying(e), o.error), true)
    else
      var r := o.verdict.value;
      var judged := Judged(cfg, e, r);
      if r.status.CheckFailed? || PolicyFailed(cfg, judged) then AfterFailure(cfg, judged, r.status.CheckFailed?, o)
      else (Succeeded(judged), true)
  }

  // ---------------------------------------------------------------------
  // Turns and runs
  // ---------------------------------------------------------------------

  function BeginTurn(e: Engine): Engine
  {
    e.(budget := e.budget.(turns := e.budget.turns + 1),
       journal := e.journal.(models := e.journal.models + [e.messages]))
  }

  /** The response is in the conversation; tools or completion follow, unless the budget is spent. */
  ghost function AfterResponse(cfg: Config, e: Engine, calls: seq<Call>, o: TurnOracle): (Engine, Outcome)
  {
    var reason := LimitReason(cfg, e.budget, o.responseClock);
    if reason.Some? then (FailForBudget(e, reason.value, ReasonText(reason.value)), Returned)
    else if calls == [] then
      var (e1, completed) := Complete(cfg, e, o.completion);
      (e1, if completed then Returned else Continue)
    else
      var e1 := AfterBatch(cfg, e, calls, o.tools);
      var spent := LimitReason(cfg, e1.budget, o.toolsClock);
      if spent.Some? then (FailForBudget(e1, spent.value, ReasonText(spent.value)), Returned)
      else (e1, Continue)
  }

  ghost function Turn(cfg: Config, e: Engine, o: TurnOracle): (Engine, Outcome)
  {
    var reason := LimitReason(cfg, e.budget, o.beginClock);
    if reason.Some? then (FailForBudget(e, reason.value, ReasonText(reason.value)), Returned)
    else
      var e1 := BeginTurn(e);
      if o.response.None? then (End(e1.(status := TaskFailed), false), Raised)
      else
        var blocks := o.response.value;
        AfterResponse(cfg, Say(cfg, e1, Message(Assistant, Blocks(blocks))), CallsOf(blocks), o)
  }

  /** The else branch of the turn loop. */
  function TurnsSpent(cfg: Config, e: Engine): Engine
  {
    End(Reflecting(cfg, FailedBy(Exhaust(e, MaxTurns), Mark(FINAL_RESPONSE, Blocked, ReasonText(MaxTurns)))), false)
  }

  /** The turns from the k-th on. */
  ghost function Loop(cfg: Config, e: Engine, env: nat -> TurnOracle, k: nat): (Engine, Outcome)
    decreases cfg.maxTurns - k
  {
    if k >= cfg.maxTurns then (TurnsSpent(cfg, e), Returned)
    else
      var (e1, out) := Turn(cfg, e, env(k));
      if out == Continue then Loop(cfg, e1, env, k + 1) else (e1, out)
  }

  function NewEngine(files: Files, clock: real): Engine
  {
    Engine(TaskRunning, None, [], [], None, None, None, None, [], Budget(clock, 0, 0, None), [], files,
           Journal([], [], [], 0, [], [], [], 0))
  }

  function Created(cfg: Config, e: Engine, message: string): Engine
  {
    Say(cfg, e.(plan := Some(FromKinds(RuntimePlanKinds(cfg.hasConstraints, cfg.maxRetries)))),
        Message(User, Plain(message)))
  }

  function Begun(e: Engine): Engine
  {
    Plan(Plan(e, Mark(UNDERSTAND_TASK, Done, "runtime plan created from task and config")),
         Mark(INSPECT_CONTEXT, InProgress, "ready to gather context"))
  }

  /** PlanController.initialize */
  function Planned(cfg: Config, e: Engine, message: string): Engine
  {
    if cfg.planning then Begun(Created(cfg, e, message)) else e
  }

  function Opened(cfg: Config, files: Files, opening: Opening): Engine
  {
    var e := Say(cfg, NewEngine(files, opening.clock), Message(User, Plain(opening.task)));
    var e1 := Planned(cfg, e, opening.planMessage);
    if opening.memory == "" then e1
    else Say(cfg, e1, Message(User, Plain("Long-term memory context:\n" + opening.memory)))
  }

  function Close(e: Engine): Engine
  {
    e.(journal := e.journal.(closings := e.journal.closings + 1))
  }

  /** RunCoordinator.run */
  ghost function Run(cfg: Config, files: Files, opening: Opening, env: nat -> TurnOracle): (Engine, Outcome)
  {
    var (e, out) := Loop(cfg, Opened(cfg, files, opening), env, 0);
    (Close(e), out)
  }
}
