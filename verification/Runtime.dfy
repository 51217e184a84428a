// The run engine as objects that change in place: state, budget, conversation and
// files of a session, and the controllers that drive them. Each method is proved to
// do what the run specification says of the session's view.
module Runtime {
  import opened Text
  import opened Conversation
  import opened Patching
  import opened FileTools
  import opened PatchPolicy
  import opened RunTypes
  import opened Reflection
  import opened Planning
  import opened RunSpec
  import opened RunTools
  import opened RunLedger
  import opened RunOutcome
  import opened RunEnding

  class AgentState {
    var status: TaskStatus
    var plan: TaskPlan?
    var trajectory: seq<Step>
    var verificationReport: Option<VerificationReport>
    var patchPolicyReport: Option<PolicyReport>
    var rollbackReport: Option<RollbackReport>
    var reflectionReport: Option<ReflectionReport>
    var retryReports: seq<Decision>
    ghost var planOps: seq<PlanOp>

    constructor ()
      ensures status == TaskPending && plan == null && trajectory == [] && retryReports == [] && planOps == []
      ensures verificationReport == None && patchPolicyReport == None
      ensures rollbackReport == None && reflectionReport == None
    {
      status, plan, trajectory, retryReports, planOps := TaskPending, null, [], [], [];
      verificationReport, patchPolicyReport, rollbackReport, reflectionReport := None, None, None, None;
    }

    method Start()
      modifies `status
      ensures status == if old(status).TaskPending? then TaskRunning else old(status)
    {
      if status.TaskPending? {
        status := TaskRunning;
      }
    }

    method Finish()
      modifies `status
      ensures status == TaskSucceeded
    {
      status := TaskSucceeded;
    }

    method Fail()
      modifies `status
      ensures status == TaskFailed
    {
      status := TaskFailed;
    }

    method AddStep(step: Step)
      modifies `status, `trajectory
      ensures trajectory == old(trajectory) + [step]
      ensures status == if old(status).TaskPending? then TaskRunning else old(status)
    {
      Start();
      trajectory := trajectory + [step];
    }

    method ReflectionRetryCount() returns (n: nat)
      ensures n == RetryCount(retryReports)
    {
      n := 0;
      for i := 0 to |retryReports|
        invariant n == RetryCount(retryReports[..i])
      {
        assert retryReports[..i + 1][..i] == retryReports[..i];
        if retryReports[i].status == Retry {
          n := n + 1;
        }
      }
      assert retryReports[..|retryReports|] == retryReports;
    }

    /** The plan operation, and the steps it added. */
    method ApplyToPlan(op: PlanOp) returns (ghost added: set<object>)
      requires plan != null && plan.Valid()
      modifies `planOps, plan, plan.steps
      ensures plan.Valid() && plan.View() == PlanAfter(old(plan.View()), op)
      ensures planOps == old(planOps) + [op]
      ensures fresh(added) && forall s | s in plan.steps :: s in old(plan.steps) || s in added
    {
      plan.Apply(op);
      planOps := planOps + [op];
      added := set s | s in plan.steps && s !in old(plan.steps);
    }
  }

  class RunBudget {
    const maxToolCalls: Option<nat>
    const maxRunSeconds: Option<real>
    const startedAt: real
    var turns: nat
    var toolCalls: nat
    var exhausted: Option<Reason>

    /** RunBudget.from_config */
    constructor (cfg: Config, clock: real)
      ensures View() == Budget(clock, 0, 0, None) && Limits(cfg)
    {
      maxToolCalls := if cfg.maxToolCalls.Some? then Some(MaxInt(0, cfg.maxToolCalls.value)) else None;
      maxRunSeconds := if cfg.maxRunSeconds.Some? then Some(MaxReal(0.0, cfg.maxRunSeconds.value)) else None;
      startedAt := clock;
      turns, toolCalls, exhausted := 0, 0, None;
    }

    ghost predicate Limits(cfg: Config)
    {
      && maxToolCalls == (if cfg.maxToolCalls.Some? then Some(MaxInt(0, cfg.maxToolCalls.value)) else None)
      && maxRunSeconds == (if cfg.maxRunSeconds.Some? then Some(MaxReal(0.0, cfg.maxRunSeconds.value)) else None)
    }

    function View(): Budget
      reads this
    {
      Budget(startedAt, turns, toolCalls, exhausted)
    }

    method LimitReached(ghost cfg: Config, clock: real) returns (reason: Option<Reason>)
      requires Limits(cfg)
      ensures reason == LimitReason(cfg, View(), clock) == LimitAt(cfg, View(), clock)
    {
      LimitExactly(cfg, View(), clock);
      if maxToolCalls.Some? && toolCalls >= maxToolCalls.value {
        return Some(MaxToolCalls);
      }
      var elapsed := MaxReal(0.0, clock - startedAt);
      if maxRunSeconds.Some? && elapsed >= maxRunSeconds.value {
        return Some(MaxRunTime);
      }
      reason := None;
    }

    method BeginTurn(ghost cfg: Config, clock: real) returns (reason: Option<Reason>)
      requires Limits(cfg)
      modifies `turns
      ensures reason == LimitReason(cfg, old(View()), clock)
      ensures turns == if reason.Some? then old(turns) else old(turns) + 1
    {
      reason := LimitReached(cfg, clock);
      if reason.None? {
        turns := turns + 1;
      }
    }

    method RecordToolCalls(count: nat)
      modifies `toolCalls
      ensures toolCalls == old(toolCalls) + count
    {
      toolCalls := toolCalls + count;
    }

    method MarkExhausted(reason: Reason)
      modifies `exhausted
      ensures exhausted == if old(exhausted).Some? then old(exhausted) else Some(reason)
    {
      if exhausted.None? {
        exhausted := Some(reason);
      }
    }
  }

  /** What one run owns. */
  class RunSession {
    const cfg: Config
    const state: AgentState
    const budget: RunBudget
    const context: ConversationContext
    const fs: FileSystem
    ghost var journal: Journal
    ghost var Repr: set<object>

    /** A fresh session over existing files. */
    constructor (cfg: Config, fs: FileSystem, clock: real)
      ensures this.cfg == cfg && this.fs == fs
      ensures Valid() && fresh(Repr - {fs})
      ensures View() == NewEngine(fs.files, clock)
    {
      this.cfg, this.fs := cfg, fs;
      state := new AgentState();
      budget := new RunBudget(cfg, clock);
      context := new ConversationContext(cfg.maxContextMessages);
      journal := Journal([], [], [], 0, [], [], [], 0);
      new;
      Repr := {this, state, budget, context, fs};
      state.Start();
    }

    ghost predicate Valid()
      reads this, Repr
    {
      && {this, state, budget, context, fs} <= Repr
      && (state.plan != null ==>
            state.plan in Repr && (forall s | s in state.plan.steps :: s in Repr) && state.plan.Valid())
      && context.maxMessages == cfg.maxContextMessages && budget.Limits(cfg)
    }

    ghost function View(): Engine
      requires Valid()
      reads this, Repr
    {
      Engine(
        state.status, if state.plan == null then None else Some(state.plan.View()), state.planOps, state.trajectory,
        state.verificationReport, state.patchPolicyReport, state.rollbackReport, state.reflectionReport,
        state.retryReports, budget.View(), context.messages, fs.files, journal)
    }

    method ApplyToPlan(op: PlanOp)
      requires Valid()
      modifies Repr
      ensures Valid() && fresh(Repr - old(Repr))
      ensures View() == Plan(old(View()), op)
    {
      if state.plan == null {
        return;
      }
      ghost var added := state.ApplyToPlan(op);
      Repr := Repr + added;
    }

    method AddUserMessage(content: string)
      requires Valid()
      modifies Repr
      ensures Valid() && fresh(Repr - old(Repr))
      ensures View() == Say(cfg, old(View()), Message(User, Plain(content)))
    {
      context.Append(Message(User, Plain(content)));
    }

    method AddBlocks(role: Role, blocks: seq<Block>)
      requires Valid()
      modifies Repr
      ensures Valid() && fresh(Repr - old(Repr))
      ensures View() == Say(cfg, old(View()), Message(role, Blocks(blocks)))
    {
      context.Append(Message(role, Blocks(blocks)));
    }

    /** The terminal event of a run. */
    method RecordEnd(finished: bool)
      requires Valid()
      modifies Repr
      ensures Valid() && fresh(Repr - old(Repr))
      ensures View() == End(old(View()), finished)
    {
      journal := journal.(ends := journal.ends + [finished]);
    }
  }

  class PlanController {
    const run: RunSession

    constructor (run: RunSession)
      ensures this.run == run
    {
      this.run := run;
    }

    method Initialize(message: string)
      requires run.Valid()
      modifies run.Repr
      ensures run.Valid() && fresh(run.Repr - old(run.Repr))
      ensures run.View() == Planned(run.cfg, old(run.View()), message)
    {
      if !run.cfg.planning {
        return;
      }
      Create(message);
      Begin();
    }

    /** The plan and the message that shows it. */
    method Create(message: string)
      requires run.Valid()
      modifies run.Repr
      ensures run.Valid() && fresh(run.Repr - old(run.Repr))
      ensures run.View() == Created(run.cfg, old(run.View()), message)
    {
      var kinds := BuildRuntimePlan();
      SetPlan(kinds);
      run.AddUserMessage(message);
    }

    method Begin()
      requires run.Valid()
      modifies run.Repr
      ensures run.Valid() && fresh(run.Repr - old(run.Repr))
      ensures run.View() == Begun(old(run.View()))
    {
      MarkDone(UNDERSTAND_TASK, "runtime plan created from task and config");
      MarkStarted(INSPECT_CONTEXT, "ready to gather context");
    }

    method SetPlan(kinds: seq<string>)
      requires run.Valid()
      modifies run.Repr
      ensures run.Valid() && fresh(run.Repr - old(run.Repr))
      ensures run.View() == old(run.View()).(plan := Some(FromKinds(kinds)))
    {
      var plan := new TaskPlan(kinds);
      run.state.plan := plan;
      run.Repr := run.Repr + {plan} + set s: object | s in plan.steps;
    }

    method BuildRuntimePlan() returns (kinds: seq<string>)
      ensures kinds == RuntimePlanKinds(run.cfg.hasConstraints, run.cfg.maxRetries)
    {
      kinds := [UNDERSTAND_TASK, INSPECT_CONTEXT];
      kinds := kinds + [MODIFY_WORKSPACE];
      if run.cfg.hasConstraints {
        kinds := kinds + [SATISFY_CONSTRAINTS];
      }
      kinds := kinds + [VERIFY_OUTCOME];
      if run.cfg.maxRetries > 0 {
        kinds := kinds + [RECOVER_FAILURE];
      }
      kinds := kinds + [FINAL_RESPONSE];
    }

    method MarkStarted(kind: string, evidence: string)
      requires run.Valid()
      modifies run.Repr
      ensures run.Valid() && fresh(run.Repr - old(run.Repr))
      ensures run.View() == Plan(old(run.View()), Mark(kind, InProgress, evidence))
    {
      run.ApplyToPlan(Mark(kind, InProgress, evidence));
    }

    method MarkDone(kind: string, evidence: string)
      requires run.Valid()
      modifies run.Repr
      ensures run.Valid() && fresh(run.Repr - old(run.Repr))
      ensures run.View() == Plan(old(run.View()), Mark(kind, Done, evidence))
    {
      run.ApplyToPlan(Mark(kind, Done, evidence));
    }

    method MarkBlocked(kind: string, evidence: string)
      requires run.Valid()
      modifies run.Repr
      ensures run.Valid() && fresh(run.Repr - old(run.Repr))
      ensures run.View() == Plan(old(run.View()), Mark(kind, Blocked, evidence))
    {
      run.ApplyToPlan(Mark(kind, Blocked, evidence));
    }

    method UpdateFromToolObservation(call: Call, ghost out: Observed, isError: bool, patch: Option<PatchRecord>)
      requires run.Valid() && out.isError == isError && out.patch == patch
      modifies run.Repr
      ensures run.Valid() && fresh(run.Repr - old(run.Repr))
      ensures var mark := ToolMark(run.cfg, call, out);
        run.View() == PlanIf(old(run.View()), mark)
    {
      if call.name in ["read_file", "grep", "glob", "ast_context"] {
        MarkObserved(INSPECT_CONTEXT, isError, call.name + " returned an error", ToolEvidence(call, patch));
        return;
      }
      if call.name in ["write_file", "edit_file"] {
        MarkObserved(MODIFY_WORKSPACE, isError, call.name + " returned an error", ToolEvidence(call, patch));
        return;
      }
      if call.name == "bash" && run.cfg.looksLikeTest(call.input) {
        MarkObserved(
          VERIFY_OUTCOME, isError, "test-like bash command returned an error", ToolEvidence(call, patch));
      }
    }

    method MarkObserved(kind: string, isError: bool, failure: string, evidence: string)
      requires run.Valid()
      modifies run.Repr
      ensures run.Valid() && fresh(run.Repr - old(run.Repr))
      ensures run.View() == PlanIf(old(run.View()), Some(
                if isError then Mark(kind, InProgress, failure) else Mark(kind, Done, evidence)))
    {
      if isError {
        MarkStarted(kind, failure);
      } else {
        MarkDone(kind, evidence);
      }
    }

    method TaskConstraintStatus(checks: seq<Check>) returns (status: Option<CheckStatus>)
      ensures status == ConstraintStatus(checks)
    {
      for i := 0 to |checks|
        invariant ConstraintStatus(checks) == ConstraintStatus(checks[i..])
      {
        if checks[i].TaskConstraints? {
          return Some(checks[i].status);
        }
      }
      status := None;
    }

    method UpdateFromVerification(r: VerificationReport)
      requires run.Valid()
      modifies run.Repr
      ensures run.Valid() && fresh(run.Repr - old(run.Repr))
      ensures run.View() == PlanAll(old(run.View()), VerificationMarks(r))
      ensures old(run.View()).plan.Some? ==>
        run.View().plan.Some? && Reported(old(run.View()).plan.value, run.View().plan.value, r)
    {
      MarkConstraints(r);
      MarkOutcome(r);
      PlanAllConcat(old(run.View()), ConstraintMarks(r), OutcomeMarks(r));
      if old(run.View()).plan.Some? {
        PlanAllReplays(old(run.View()), VerificationMarks(r));
        VerificationSettles(old(run.View()).plan.value, r);
      }
    }

    method MarkConstraints(r: VerificationReport)
      requires run.Valid()
      modifies run.Repr
      ensures run.Valid() && fresh(run.Repr - old(run.Repr))
      ensures run.View() == PlanAll(old(run.View()), ConstraintMarks(r))
    {
      PlanAllAtMostOne(run.View(), ConstraintMarks(r));
      var status := TaskConstraintStatus(r.checks);
      if status == Some(CheckPassed) || status == Some(CheckSkipped) {
        MarkDone(SATISFY_CONSTRAINTS, "task constraint check passed or skipped");
      } else if status == Some(CheckFailed) {
        MarkBlocked(SATISFY_CONSTRAINTS, "task constraint check failed");
      }
    }

    method MarkOutcome(r: VerificationReport)
      requires run.Valid()
      modifies run.Repr
      ensures run.Valid() && fresh(run.Repr - old(run.Repr))
      ensures run.View() == PlanAll(old(run.View()), OutcomeMarks(r))
    {
      PlanAllAtMostOne(run.View(), OutcomeMarks(r));
      if r.status.CheckPassed? {
        MarkDone(VERIFY_OUTCOME, if r.summary != "" then r.summary else "verification passed");
      } else if r.status.CheckFailed? {
        MarkBlocked(VERIFY_OUTCOME, if r.summary != "" then r.summary else "verification failed");
      }
    }

    method Complete(evidence: string)
      requires run.Valid()
      modifies run.Repr
      ensures run.Valid() && fresh(run.Repr - old(run.Repr))
      ensures run.View() == Plan(old(run.View()), CompleteAll(evidence))
    {
      run.ApplyToPlan(CompleteAll(evidence));
    }
  }

  lemma PlanAllAtMostOne(e: Engine, ops: seq<PlanOp>)
    requires |ops| <= 1
    ensures PlanAll(e, ops) == if ops == [] then e else Plan(e, ops[0])
  {
  }

  lemma {:induction false} PlanAllConcat(e: Engine, a: seq<PlanOp>, b: seq<PlanOp>)
    ensures PlanAll(e, a + b) == PlanAll(PlanAll(e, a), b)
  {
    if b == [] {
      assert a + b == a;
    } else {
      assert (a + b)[..|a + b| - 1] == a + b[..|b| - 1];
      PlanAllConcat(e, a, b[..|b| - 1]);
    }
  }

  lemma {:induction false} PlanAllReplays(e: Engine, ops: seq<PlanOp>)
    requires e.plan.Some?
    ensures PlanAll(e, ops).plan == Some(Replay(e.plan.value, ops))
  {
    if ops != [] {
      PlanAllReplays(e, ops[..|ops| - 1]);
    }
  }

  class TurnRunner {
    const run: RunSession
    const plans: PlanController

    constructor (run: RunSession, plans: PlanController)
      ensures this.run == run && this.plans == plans
    {
      this.run, this.plans := run, plans;
    }

    method ExecuteAction(call: Call, o: ToolOracle)
      returns (isError: bool, patch: Option<PatchRecord>, ghost attempt: Option<Attempt>)
      modifies run.fs
      ensures Observed(run.fs.files, isError, patch, attempt) == Execute(old(run.fs.files), call, o)
      ensures Dispatched(old(run.fs.files), call, o, Observed(run.fs.files, isError, patch, attempt))
    {
      ExecuteExactly(run.fs.files, call, o);
      isError, patch, attempt := true, None, None;
      if o.blocked {
        return;
      }
      if o.gate.None? {
        return;
      }
      if call.name == "write_file" {
        if "path" in call.input {
          patch, attempt := ExecuteWrite(run.fs, o.gate.value, Get(call.input, "content"), o.io);
          isError := patch.None?;
        }
      } else if call.name == "edit_file" {
        if "path" in call.input {
          patch, attempt := ExecuteEdit(
            run.fs, o.gate.value, Get(call.input, "old_string"), Get(call.input, "new_string"), o.io);
          isError := patch.None?;
        }
      } else {
        isError := o.fails;
      }
    }

    /** What the session sees of an action. */
    method Act(call: Call, o: ToolOracle)
      returns (isError: bool, patch: Option<PatchRecord>, ghost out: Observed)
      modifies run.fs
      ensures out == Execute(old(run.fs.files), call, o) == Observed(run.fs.files, isError, patch, out.attempt)
    {
      ghost var attempt;
      isError, patch, attempt := ExecuteAction(call, o);
      out := Observed(run.fs.files, isError, patch, attempt);
    }

    /** Executes a call and adds its step to the trajectory. */
    method ExecuteAndAddStep(call: Call, o: ToolOracle)
      returns (isError: bool, patch: Option<PatchRecord>, ghost out: Observed)
      requires run.Valid() && run.state.status == TaskRunning
      modifies run.Repr
      ensures run.Valid() && fresh(run.Repr - old(run.Repr))
      ensures out == Execute(old(run.View()).files, call, o) && out.isError == isError && out.patch == patch
      ensures run.View() == Noted(old(run.View()), call, out)
    {
      isError, patch, out := Act(call, o);
      run.state.AddStep(Step(call.name, call.input, isError, patch));
      run.journal := run.journal.(
        attempts := run.journal.attempts + if out.attempt.Some? then [out.attempt.value] else []);
    }

    /** One iteration of the batch. */
    method ExecuteCall(call: Call, o: ToolOracle) returns (result: Block)
      requires run.Valid() && plans.run == run && run.state.status == TaskRunning
      modifies run.Repr
      ensures run.Valid() && fresh(run.Repr - old(run.Repr))
      ensures run.View() == OneTool(run.cfg, old(run.View()), call, o)
      ensures result == ToolResult(call.id, o.output, Execute(old(run.View()).files, call, o).isError)
    {
      var isError, patch, out := ExecuteAndAddStep(call, o);
      plans.UpdateFromToolObservation(call, out, isError, patch);
      result := ToolResult(call.id, o.output, isError);
    }

    method ExecuteAll(calls: seq<Call>, tools: nat -> ToolOracle) returns (results: seq<Block>)
      requires run.Valid() && plans.run == run && run.state.status == TaskRunning
      modifies run.Repr
      ensures run.Valid() && fresh(run.Repr - old(run.Repr))
      ensures (run.View(), results) == ToolsAfter(run.cfg, old(run.View()), calls, tools, |calls|)
    {
      results := [];
      ghost var start := run.View();
      for i := 0 to |calls|
        invariant run.Valid() && fresh(run.Repr - old(run.Repr)) && run.View().status == TaskRunning
        invariant Reached(run.cfg, start, calls, tools, i, run.View(), results)
      {
        ghost var before := run.View();
        var result := ExecuteCall(calls[i], tools(i));
        ReachedNext(run.cfg, start, calls, tools, i, before, results);
        results := results + [result];
      }
    }

    method ExecuteToolCalls(calls: seq<Call>, tools: nat -> ToolOracle)
      requires run.Valid() && plans.run == run && run.state.status == TaskRunning
      modifies run.Repr
      ensures run.Valid() && fresh(run.Repr - old(run.Repr))
      ensures var (p, results) := ToolsAfter(run.cfg, old(run.View()), calls, tools, |calls|);
        run.View() == Say(run.cfg, p, Message(User, Blocks(results)))
    {
      var results := ExecuteAll(calls, tools);
      run.AddBlocks(User, results);
    }
  }

  class CompletionController {
    const run: RunSession
    const plans: PlanController

    constructor (run: RunSession, plans: PlanController)
      ensures this.run == run && this.plans == plans
    {
      this.run, this.plans := run, plans;
    }

    method StartVerification()
      requires run.Valid() && plans.run == run
      modifies run.Repr
      ensures run.Valid() && fresh(run.Repr - old(run.Repr))
      ensures run.View() == Verifying(old(run.View()))
    {
      plans.MarkStarted(VERIFY_OUTCOME, "model returned a final response");
      run.journal := run.journal.(verifications := run.journal.verifications + 1);
    }

    method RecordVerification(r: VerificationReport)
      requires run.Valid() && plans.run == run
      modifies run.Repr
      ensures run.Valid() && fresh(run.Repr - old(run.Repr))
      ensures run.View() == Verified(old(run.View()), r)
    {
      run.state.verificationReport := Some(r);
      plans.UpdateFromVerification(r);
    }

    method EvaluatePatchPolicy() returns (report: Option<PolicyReport>)
      requires run.Valid()
      modifies run.Repr
      ensures run.Valid() && fresh(run.Repr - old(run.Repr))
      ensures run.View() == PolicyEvaluated(run.cfg, old(run.View()))
      ensures report == if run.cfg.policyOn then run.View().policy else None
    {
      report := None;
      if run.cfg.policyOn {
        var evaluated := EvaluateAndRecord();
        report := Some(evaluated);
      }
    }

    method EvaluateAndRecord() returns (report: PolicyReport)
      requires run.Valid() && run.cfg.policyOn
      modifies run.Repr
      ensures run.Valid() && fresh(run.Repr - old(run.Repr))
      ensures run.View() == PolicyEvaluated(run.cfg, old(run.View())) && run.View().policy == Some(report)
    {
      report := EvaluatePatches();
      SetPolicyReport(report);
    }

    method EvaluatePatches() returns (report: PolicyReport)
      requires run.Valid()
      ensures report == Evaluated(run.cfg.limits, PatchesOf(run.View().trajectory))
    {
      var patches := PatchMetadataFromState(run.state.trajectory);
      report := Evaluate(run.cfg.limits, patches);
    }

    method SetPolicyReport(report: PolicyReport)
      requires run.Valid()
      modifies run.Repr
      ensures run.Valid() && fresh(run.Repr - old(run.Repr))
      ensures run.View() == WithPolicy(old(run.View()), report)
    {
      run.state.patchPolicyReport := Some(report);
      run.journal := run.journal.(policies := run.journal.policies + [CheckFor(run.budget.turns, report)]);
    }

    method RollbackAfterFailedVerification(restore: nat -> RestoreIo)
      requires run.Valid()
      modifies run.Repr
      ensures run.Valid() && fresh(run.Repr - old(run.Repr))
      ensures run.View() == if run.cfg.autoRollback then RolledBack(old(run.View()), restore) else old(run.View())
    {
      if !run.cfg.autoRollback {
        return;
      }
      var patches := PatchMetadataFromState(run.state.trajectory);
      RollbackPatches(patches, restore);
    }

    method RollbackPatches(patches: seq<PatchRecord>, restore: nat -> RestoreIo)
      requires run.Valid() && patches == PatchesOf(run.state.trajectory)
      modifies run.Repr
      ensures run.Valid() && fresh(run.Repr - old(run.Repr))
      ensures run.View() == RolledBack(old(run.View()), restore)
    {
      ghost var r := RollbackOf(run.View(), restore);
      var report := RollbackAppliedPatches(run.fs, patches, restore);
      SetRollbackReport(report, r);
    }

    method SetRollbackReport(report: RollbackReport, ghost r: Rollback)
      requires run.Valid() && r.report == report && r.files == run.fs.files
      modifies run.Repr
      ensures run.Valid() && fresh(run.Repr - old(run.Repr))
      ensures run.View() == WithRollback(old(run.View()), r)
    {
      run.state.rollbackReport := Some(report);
      run.journal := run.journal.(rollbacks := run.journal.rollbacks + [r]);
    }

    method ReflectFailure() returns (report: Option<ReflectionReport>)
      requires run.Valid()
      modifies run.Repr
      ensures run.Valid() && fresh(run.Repr - old(run.Repr))
      ensures report == ReportFor(run.cfg, old(run.View()))
      ensures run.View() == Reflecting(run.cfg, old(run.View()))
    {
      if !run.cfg.reflectionOn {
        return None;
      }
      var reflected := Reflect(run.state.verificationReport, run.state.patchPolicyReport, run.state.trajectory,
                               run.state.rollbackReport);
      report := Some(reflected);
      run.state.reflectionReport := report;
    }

    method BuildPlanRepair(d: Decision) returns (op: PlanOp)
      ensures op == RepairOf(d)
    {
      var strategy := if d.strategy.Some? then Some(d.strategy.value.strategy) else None;
      var categories := if d.strategy.Some? then d.strategy.value.categories else d.categories;
      var actions := if d.strategy.Some? then d.strategy.value.actions else [];
      if actions == [] {
        actions := DefaultActions(strategy, categories);
      }
      var kinds := ToPlanItems(d.retryIndex, Unique(actions));
      op := Repair(RepairTarget(strategy, categories), kinds, "plan repair strategy");
    }

    method ApplyPlanRepair(d: Decision)
      requires run.Valid()
      modifies run.Repr
      ensures run.Valid() && fresh(run.Repr - old(run.Repr))
      ensures run.View() == Repaired(run.cfg, old(run.View()), RepairOf(d))
    {
      if run.cfg.planning {
        var op := BuildPlanRepair(d);
        run.ApplyToPlan(op);
      }
    }

    method AddRetryReport(d: Decision)
      requires run.Valid()
      modifies run.Repr
      ensures run.Valid() && fresh(run.Repr - old(run.Repr))
      ensures run.View() == old(run.View()).(retries := old(run.View()).retries + [d])
    {
      run.state.retryReports := run.state.retryReports + [d];
    }

    method Prompt(d: Decision, prompt: string)
      requires run.Valid() && plans.run == run
      modifies run.Repr
      ensures run.Valid() && fresh(run.Repr - old(run.Repr))
      ensures run.View() == Prompted(run.cfg, old(run.View()), d, prompt)
    {
      AddRetryReport(d);
      plans.MarkStarted(RECOVER_FAILURE, "reflection report is retryable and budget remains");
      run.AddUserMessage(prompt);
    }

    method Stop(d: Decision)
      requires run.Valid() && plans.run == run
      modifies run.Repr
      ensures run.Valid() && fresh(run.Repr - old(run.Repr))
      ensures run.View() == Stopping(old(run.View()), d)
    {
      AddRetryReport(d);
      plans.MarkBlocked(RECOVER_FAILURE, StopText(d.status));
    }

    method DecideRetry(report: Option<ReflectionReport>, o: CompletionOracle) returns (d: Decision)
      requires run.Valid() && report == ReportFor(run.cfg, run.View())
      ensures d == DecisionFor(run.cfg, run.View(), o)
    {
      var attempted := run.state.ReflectionRetryCount();
      var ranked := false;
      if run.cfg.rankingOn && report.Some? && report.value.retryable && attempted < run.cfg.maxRetries {
        ranked := o.ranked;
      }
      d := Decide(report, attempted, run.cfg.maxRetries, ranked, run.cfg.matrix);
    }

    method ScheduleReflectionRetry(report: Option<ReflectionReport>, o: CompletionOracle) returns (scheduled: bool)
      requires run.Valid() && plans.run == run && report == ReportFor(run.cfg, run.View())
      modifies run.Repr
      ensures run.Valid() && fresh(run.Repr - old(run.Repr))
      ensures (run.View(), scheduled) == Scheduled(run.cfg, old(run.View()), o)
      ensures var e := old(run.View());
        scheduled <==> MayRetry(run.cfg, e.retries, e.verification, e.policy, e.rollback)
    {
      RetryScheduledExactly(run.cfg, run.View(), o);
      if run.cfg.maxRetries <= 0 {
        return false;
      }
      var d := DecideRetry(report, o);
      scheduled := d.status == DecisionStatus.Retry;
      if scheduled {
        Retry(d, o.prompt);
      } else {
        Stop(d);
      }
    }

    method Retry(d: Decision, prompt: string)
      requires run.Valid() && plans.run == run
      modifies run.Repr
      ensures run.Valid() && fresh(run.Repr - old(run.Repr))
      ensures run.View() == Retrying(run.cfg, old(run.View()), d, prompt)
    {
      ApplyPlanRepair(d);
      Prompt(d, prompt);
    }

    method FailAndBlock(kind: string, text: string)
      requires run.Valid() && plans.run == run
      modifies run.Repr
      ensures run.Valid() && fresh(run.Repr - old(run.Repr))
      ensures run.View() == FailedBy(old(run.View()), Mark(kind, Blocked, text))
    {
      run.state.Fail();
      plans.MarkBlocked(kind, text);
    }

    method HandleVerifierError(error: string)
      requires run.Valid() && plans.run == run
      modifies run.Repr
      ensures run.Valid() && fresh(run.Repr - old(run.Repr))
      ensures run.View() == VerifierError(run.cfg, old(run.View()), error)
    {
      FailAndBlock(VERIFY_OUTCOME, error);
      var _ := ReflectFailure();
      run.RecordEnd(false);
    }

    /** The rollback of a failed verification, then the reflection on it. */
    method RollbackAndReflect(failed: bool, restore: nat -> RestoreIo) returns (report: Option<ReflectionReport>)
      requires run.Valid()
      modifies run.Repr
      ensures run.Valid() && fresh(run.Repr - old(run.Repr))
      ensures var e := old(run.View());
        run.View() == Reflecting(run.cfg, if failed && run.cfg.autoRollback then RolledBack(e, restore) else e)
      ensures report == ReportFor(run.cfg, run.View())
    {
      if failed {
        RollbackAfterFailedVerification(restore);
      }
      report := ReflectFailure();
    }

    method HandleFailure(failed: bool, o: CompletionOracle) returns (completed: bool)
      requires run.Valid() && plans.run == run
      modifies run.Repr
      ensures run.Valid() && fresh(run.Repr - old(run.Repr))
      ensures (run.View(), completed) == AfterFailure(run.cfg, old(run.View()), failed, o)
    {
      var report := RollbackAndReflect(failed, o.restore);
      completed := RetryOrFail(report, o);
    }

    method RetryOrFail(report: Option<ReflectionReport>, o: CompletionOracle) returns (completed: bool)
      requires run.Valid() && plans.run == run && report == ReportFor(run.cfg, run.View())
      modifies run.Repr
      ensures run.Valid() && fresh(run.Repr - old(run.Repr))
      ensures (run.View(), completed) == RetriedOrFailed(run.cfg, old(run.View()), o)
    {
      var scheduled := ScheduleReflectionRetry(report, o);
      if !scheduled {
        EndFailed(o.summary);
      }
      completed := !scheduled;
    }

    method EndFailed(summary: string)
      requires run.Valid() && plans.run == run
      modifies run.Repr
      ensures run.Valid() && fresh(run.Repr - old(run.Repr))
      ensures run.View() == End(FailedBy(old(run.View()), Mark(FINAL_RESPONSE, Blocked, summary)), false)
    {
      FailAndBlock(FINAL_RESPONSE, summary);
      run.RecordEnd(false);
    }

    method Succeed()
      requires run.Valid() && plans.run == run
      modifies run.Repr
      ensures run.Valid() && fresh(run.Repr - old(run.Repr))
      ensures run.View() == Succeeded(old(run.View()))
    {
      run.state.Finish();
      plans.Complete("task finished successfully");
      run.RecordEnd(true);
    }

    /** Records the report and evaluates the policy; true when one of them failed. */
    method Judge(r: VerificationReport) returns (failed: bool)
      requires run.Valid() && plans.run == run
      modifies run.Repr
      ensures run.Valid() && fresh(run.Repr - old(run.Repr))
      ensures run.View() == PolicyEvaluated(run.cfg, Verified(old(run.View()), r))
      ensures failed <==> r.status.CheckFailed? || PolicyFailed(run.cfg, run.View())
    {
      RecordVerification(r);
      var policyReport := EvaluatePatchPolicy();
      failed := r.status.CheckFailed? || (policyReport.Some? && policyReport.value.status == Failed);
    }

    method Complete(o: CompletionOracle) returns (completed: bool)
      requires run.Valid() && plans.run == run
      modifies run.Repr
      ensures run.Valid() && fresh(run.Repr - old(run.Repr))
      ensures (run.View(), completed) == RunSpec.Complete(run.cfg, old(run.View()), o)
      ensures old(run.View()).status == TaskRunning ==>
        CompletionTells(run.cfg, old(run.View()), o, run.View(), completed)
    {
      if run.View().status == TaskRunning {
        CompletionExactly(run.cfg, run.View(), o);
      }
      completed := VerifyAndConclude(o);
    }

    method VerifyAndConclude(o: CompletionOracle) returns (completed: bool)
      requires run.Valid() && plans.run == run
      modifies run.Repr
      ensures run.Valid() && fresh(run.Repr - old(run.Repr))
      ensures (run.View(), completed) == RunSpec.Complete(run.cfg, old(run.View()), o)
    {
      StartVerification();
      if o.verdict.None? {
        HandleVerifierError(o.error);
        return true;
      }
      completed := Conclude(o.verdict.value, o);
    }

    /** What follows a verification report. */
    method Conclude(r: VerificationReport, o: CompletionOracle) returns (completed: bool)
      requires run.Valid() && plans.run == run
      modifies run.Repr
      ensures run.Valid() && fresh(run.Repr - old(run.Repr))
      ensures var judged := PolicyEvaluated(run.cfg, Verified(old(run.View()), r));
        (run.View(), completed) ==
          if r.status.CheckFailed? || PolicyFailed(run.cfg, judged)
          then AfterFailure(run.cfg, judged, r.status.CheckFailed?, o) else (Succeeded(judged), true)
    {
      var failed := Judge(r);
      if failed {
        completed := HandleFailure(r.status.CheckFailed?, o);
      } else {
        Succeed();
        completed := true;
      }
    }
  }

  class RunCoordinator {
    const run: RunSession
    const plans: PlanController
    const turns: TurnRunner
    const completion: CompletionController

    constructor (run: RunSession)
      ensures this.run == run && Wired()
    {
      this.run := run;
      var controller := new PlanController(run);
      plans := controller;
      turns := new TurnRunner(run, controller);
      completion := new CompletionController(run, controller);
    }

    ghost predicate Wired()
    {
      && plans.run == run && turns.run == run && turns.plans == plans
      && completion.run == run && completion.plans == plans
    }

    method Exhausted(reason: Reason)
      requires run.Valid()
      modifies run.Repr
      ensures run.Valid() && fresh(run.Repr - old(run.Repr))
      ensures run.View() == Exhaust(old(run.View()), reason)
    {
      run.budget.MarkExhausted(reason);
    }

    method FailForBudget(reason: Reason)
      requires run.Valid() && Wired()
      modifies run.Repr
      ensures run.Valid() && fresh(run.Repr - old(run.Repr))
      ensures run.View() == RunSpec.FailForBudget(old(run.View()), reason, ReasonText(reason))
    {
      Exhausted(reason);
      completion.FailAndBlock(FINAL_RESPONSE, ReasonText(reason));
      run.RecordEnd(false);
    }

    /** The budget check and the call of the model that open a turn. */
    method BeginTurn(clock: real) returns (reason: Option<Reason>)
      requires run.Valid()
      modifies run.Repr
      ensures run.Valid() && fresh(run.Repr - old(run.Repr))
      ensures reason == LimitReason(run.cfg, old(run.View()).budget, clock)
      ensures run.View() == if reason.Some? then old(run.View()) else RunSpec.BeginTurn(old(run.View()))
    {
      reason := run.budget.BeginTurn(run.cfg, clock);
      if reason.None? {
        run.journal := run.journal.(models := run.journal.models + [run.context.messages]);
      }
    }

    method RecordToolCalls(count: nat)
      requires run.Valid()
      modifies run.Repr
      ensures run.Valid() && fresh(run.Repr - old(run.Repr))
      ensures var e := old(run.View());
        run.View() == e.(
          budget := e.budget.(toolCalls := e.budget.toolCalls + count),
          journal := e.journal.(batches := e.journal.batches + [Batch(e.budget.toolCalls, count)]))
    {
      run.journal := run.journal.(batches := run.journal.batches + [Batch(run.budget.toolCalls, count)]);
      run.budget.RecordToolCalls(count);
    }

    method RunBatch(calls: seq<Call>, tools: nat -> ToolOracle)
      requires run.Valid() && Wired() && run.state.status == TaskRunning
      modifies run.Repr
      ensures run.Valid() && fresh(run.Repr - old(run.Repr))
      ensures run.View() == AfterBatch(run.cfg, old(run.View()), calls, tools)
    {
      turns.ExecuteToolCalls(calls, tools);
      RecordToolCalls(|calls|);
    }

    /** The tool branch of a turn. */
    method ToolTurn(calls: seq<Call>, o: TurnOracle) returns (out: Outcome)
      requires run.Valid() && Wired() && run.state.status == TaskRunning
      modifies run.Repr
      ensures run.Valid() && fresh(run.Repr - old(run.Repr))
      ensures var e := AfterBatch(run.cfg, old(run.View()), calls, o.tools);
        var spent := LimitReason(run.cfg, e.budget, o.toolsClock);
        (run.View(), out) ==
          if spent.Some? then (RunSpec.FailForBudget(e, spent.value, ReasonText(spent.value)), Returned)
          else (e, Continue)
    {
      RunBatch(calls, o.tools);
      var spent := run.budget.LimitReached(run.cfg, o.toolsClock);
      if spent.Some? {
        FailForBudget(spent.value);
        return Returned;
      }
      out := Continue;
    }

    method AfterResponse(calls: seq<Call>, o: TurnOracle) returns (out: Outcome)
      requires run.Valid() && Wired() && run.state.status == TaskRunning
      modifies run.Repr
      ensures run.Valid() && fresh(run.Repr - old(run.Repr))
      ensures (run.View(), out) == RunSpec.AfterResponse(run.cfg, old(run.View()), calls, o)
    {
      var reason := run.budget.LimitReached(run.cfg, o.responseClock);
      if reason.Some? {
        FailForBudget(reason.value);
        return Returned;
      }
      if calls == [] {
        out := CompletionTurn(o.completion);
      } else {
        out := ToolTurn(calls, o);
      }
    }

    method CompletionTurn(o: CompletionOracle) returns (out: Outcome)
      requires run.Valid() && Wired()
      modifies run.Repr
      ensures run.Valid() && fresh(run.Repr - old(run.Repr))
      ensures var (e, completed) := RunSpec.Complete(run.cfg, old(run.View()), o);
        run.View() == e && out == if completed then Returned else Continue
    {
      var completed := completion.Complete(o);
      out := if completed then Returned else Continue;
    }

    /** parse_response: the tool calls and the texts of a response, in order. */
    method ParseResponse(blocks: seq<Block>) returns (calls: seq<Call>, texts: seq<string>)
      ensures calls == CallsOf(blocks) && texts == TextsOf(blocks)
    {
      calls, texts := [], [];
      for i := 0 to |blocks|
        invariant calls == CallsOf(blocks[..i]) && texts == TextsOf(blocks[..i])
      {
        assert blocks[..i + 1][..i] == blocks[..i];
        if blocks[i].TextBlock? {
          texts := texts + [blocks[i].text];
        } else if blocks[i].ToolUse? {
          calls := calls + [Call(blocks[i].id, blocks[i].name, blocks[i].input)];
        }
      }
      assert blocks[..|blocks|] == blocks;
    }

    method HandleProviderError()
      requires run.Valid()
      modifies run.Repr
      ensures run.Valid() && fresh(run.Repr - old(run.Repr))
      ensures run.View() == End(old(run.View()).(status := TaskFailed), false)
    {
      run.state.Fail();
      run.RecordEnd(false);
    }

    /** A response goes into the conversation, then to the tools or to completion. */
    method HandleResponse(blocks: seq<Block>, o: TurnOracle) returns (out: Outcome)
      requires run.Valid() && Wired() && run.state.status == TaskRunning
      modifies run.Repr
      ensures run.Valid() && fresh(run.Repr - old(run.Repr))
      ensures (run.View(), out) == RunSpec.AfterResponse(
        run.cfg, Say(run.cfg, old(run.View()), Message(Assistant, Blocks(blocks))), CallsOf(blocks), o)
    {
      var calls, _ := ParseResponse(blocks);
      run.AddBlocks(Assistant, blocks);
      assert run.View().status == TaskRunning;
      out := AfterResponse(calls, o);
    }

    method Turn(o: TurnOracle) returns (out: Outcome)
      requires run.Valid() && Wired() && run.state.status == TaskRunning
      modifies run.Repr
      ensures run.Valid() && fresh(run.Repr - old(run.Repr))
      ensures (run.View(), out) == RunSpec.Turn(run.cfg, old(run.View()), o)
    {
      var reason := BeginTurn(o.beginClock);
      if reason.Some? {
        FailForBudget(reason.value);
        return Returned;
      }
      assert run.View().status == TaskRunning;
      if o.response.None? {
        HandleProviderError();
        return Raised;
      }
      out := HandleResponse(o.response.value, o);
    }

    method TurnOf(env: nat -> TurnOracle, k: nat, ghost end: (Engine, Outcome)) returns (out: Outcome)
      requires run.Valid() && Wired() && run.View().status == TaskRunning
      requires k < run.cfg.maxTurns && Remaining(run.cfg, run.View(), env, k, end)
      modifies run.Repr
      ensures run.Valid() && fresh(run.Repr - old(run.Repr))
      ensures if out == Continue then
          run.View().status == TaskRunning && Remaining(run.cfg, run.View(), env, k + 1, end)
        else (run.View(), out) == end
    {
      ghost var before := run.View();
      out := Turn(env(k));
      RemainingNext(run.cfg, before, env, k, end);
    }

    method FailForTurns()
      requires run.Valid() && Wired()
      modifies run.Repr
      ensures run.Valid() && fresh(run.Repr - old(run.Repr))
      ensures run.View() == TurnsSpent(run.cfg, old(run.View()))
    {
      Exhausted(MaxTurns);
      completion.FailAndBlock(FINAL_RESPONSE, ReasonText(MaxTurns));
      var _ := completion.ReflectFailure();
      run.RecordEnd(false);
    }

    method InjectStartMemory(memory: string)
      requires run.Valid()
      modifies run.Repr
      ensures run.Valid() && fresh(run.Repr - old(run.Repr))
      ensures run.View() == if memory == "" then old(run.View()) else
        Say(run.cfg, old(run.View()), Message(User, Plain("Long-term memory context:\n" + memory)))
    {
      if memory != "" {
        run.AddUserMessage("Long-term memory context:\n" + memory);
      }
    }

    method Open(ghost files: Files, opening: Opening)
      requires run.Valid() && Wired() && run.View() == NewEngine(files, opening.clock)
      modifies run.Repr
      ensures run.Valid() && fresh(run.Repr - old(run.Repr))
      ensures run.View() == Opened(run.cfg, files, opening)
    {
      run.AddUserMessage(opening.task);
      plans.Initialize(opening.planMessage);
      InjectStartMemory(opening.memory);
    }

    /** The turn loop, with its else branch. */
    method RunTurns(env: nat -> TurnOracle) returns (out: Outcome)
      requires run.Valid() && Wired() && run.state.status == TaskRunning
      modifies run.Repr
      ensures run.Valid() && fresh(run.Repr - old(run.Repr))
      ensures (run.View(), out) == Loop(run.cfg, old(run.View()), env, 0)
    {
      ghost var end := Loop(run.cfg, run.View(), env, 0);
      var k;
      out, k := RunWhileTurnsLeft(env, end);
      if out == Continue {
        out := EndOfTurns(env, k, end);
      }
    }

    /** The loop itself: Continue when no turn is left. */
    method RunWhileTurnsLeft(env: nat -> TurnOracle, ghost end: (Engine, Outcome)) returns (out: Outcome, k: nat)
      requires run.Valid() && Wired() && run.View().status == TaskRunning
      requires Remaining(run.cfg, run.View(), env, 0, end)
      modifies run.Repr
      ensures run.Valid() && fresh(run.Repr - old(run.Repr))
      ensures if out == Continue then k >= run.cfg.maxTurns && Remaining(run.cfg, run.View(), env, k, end)
              else (run.View(), out) == end
    {
      k, out := 0, Continue;
      while k < run.cfg.maxTurns
        invariant run.Valid() && fresh(run.Repr - old(run.Repr)) && run.View().status == TaskRunning
        invariant out == Continue && Remaining(run.cfg, run.View(), env, k, end)
      {
        out := TurnOf(env, k, end);
        if out != Continue {
          return;
        }
        k := k + 1;
      }
    }

    method EndOfTurns(env: nat -> TurnOracle, k: nat, ghost end: (Engine, Outcome)) returns (out: Outcome)
      requires run.Valid() && Wired()
      requires k >= run.cfg.maxTurns && Remaining(run.cfg, run.View(), env, k, end)
      modifies run.Repr
      ensures run.Valid() && fresh(run.Repr - old(run.Repr))
      ensures (run.View(), out) == end
    {
      RemainingEnds(run.cfg, run.View(), env, k, end);
      FailForTurns();
      out := Returned;
    }

    method Run(ghost files: Files, opening: Opening, env: nat -> TurnOracle) returns (out: Outcome)
      requires run.Valid() && Wired() && run.View() == NewEngine(files, opening.clock)
      modifies run.Repr
      ensures run.Valid() && fresh(run.Repr - old(run.Repr))
      ensures (run.View(), out) == RunSpec.Run(run.cfg, files, opening, env)
    {
      Open(files, opening);
      OpenedIsRunning(run.cfg, files, opening);
      out := RunTurns(env);
      CloseBudget();
    }

    /** run_budget_completed is recorded on every exit. */
    method CloseBudget()
      requires run.Valid()
      modifies run.Repr
      ensures run.Valid() && fresh(run.Repr - old(run.Repr))
      ensures run.View() == Close(old(run.View()))
    {
      run.journal := run.journal.(closings := run.journal.closings + 1);
    }
  }

  /** What is left of the run from turn k on ends as the whole run does. */
  ghost predicate Remaining(cfg: Config, e: Engine, env: nat -> TurnOracle, k: nat, end: (Engine, Outcome))
  {
    Loop(cfg, e, env, k) == end
  }

  lemma RemainingEnds(cfg: Config, e: Engine, env: nat -> TurnOracle, k: nat, end: (Engine, Outcome))
    requires k >= cfg.maxTurns && Remaining(cfg, e, env, k, end)
    ensures end == (TurnsSpent(cfg, e), Returned)
  {
  }

  lemma RemainingNext(cfg: Config, e: Engine, env: nat -> TurnOracle, k: nat, end: (Engine, Outcome))
    requires e.status == TaskRunning && k < cfg.maxTurns && Remaining(cfg, e, env, k, end)
    ensures var (f, out) := RunSpec.Turn(cfg, e, env(k));
      if out == Continue then f.status == TaskRunning && Remaining(cfg, f, env, k + 1, end) else (f, out) == end
  {
    TurnKeepsRunning(cfg, e, env(k));
  }

  lemma AfterResponseKeepsRunning(cfg: Config, e: Engine, calls: seq<Call>, o: TurnOracle)
    requires e.status == TaskRunning
    ensures var (f, out) := RunSpec.AfterResponse(cfg, e, calls, o); out == Continue ==> f.status == TaskRunning
  {
    if calls == [] {
      CompleteShape(cfg, e, o.completion);
    } else {
      ToolsFrame(cfg, e, calls, o.tools, |calls|);
    }
  }

  lemma TurnKeepsRunning(cfg: Config, e: Engine, o: TurnOracle)
    requires e.status == TaskRunning
    ensures RunSpec.Turn(cfg, e, o).1 == Continue ==> RunSpec.Turn(cfg, e, o).0.status == TaskRunning
  {
    if LimitReason(cfg, e.budget, o.beginClock).None? && o.response.Some? {
      var blocks := o.response.value;
      AfterResponseKeepsRunning(
        cfg, Say(cfg, RunSpec.BeginTurn(e), Message(Assistant, Blocks(blocks))), CallsOf(blocks), o);
    }
  }

  /** State and results of a batch after its first i calls. */
  ghost predicate Reached(cfg: Config, e: Engine, calls: seq<Call>, tools: nat -> ToolOracle, i: nat,
                          p: Engine, results: seq<Block>)
  {
    i <= |calls| && (p, results) == ToolsAfter(cfg, e, calls, tools, i)
  }

  lemma ReachedNext(cfg: Config, e: Engine, calls: seq<Call>, tools: nat -> ToolOracle, i: nat,
                    p: Engine, results: seq<Block>)
    requires i < |calls| && Reached(cfg, e, calls, tools, i, p, results)
    ensures var call, o := calls[i], tools(i);
      Reached(cfg, e, calls, tools, i + 1, OneTool(cfg, p, call, o),
              results + [ToolResult(call.id, o.output, Execute(p.files, call, o).isError)])
    ensures OneTool(cfg, p, calls[i], tools(i)).status == p.status
  {
  }
}
