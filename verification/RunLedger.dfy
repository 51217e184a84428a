// What a run counts, and how it ends: the ledger invariant over every run.
module RunLedger {
  import opened Text
  import opened Conversation
  import opened Patching
  import opened PatchPolicy
  import opened RunTypes
  import opened Reflection
  import opened Planning
  import opened RunSpec

  // ---------------------------------------------------------------------
  // What each part of a turn leaves alone
  // ---------------------------------------------------------------------

  /** Equal up to the plan and its history. */
  ghost predicate PlanOnly(e: Engine, f: Engine)
  {
    f == e.(plan := f.plan, planOps := f.planOps)
  }

  lemma {:induction false} PlanAllFrame(e: Engine, ops: seq<PlanOp>)
    ensures PlanOnly(e, PlanAll(e, ops))
    decreases |ops|
  {
    if ops != [] {
      PlanAllFrame(e, ops[..|ops| - 1]);
    }
  }

  /** Equal up to the plan, the trajectory, the files and the recorded attempts. */
  ghost predicate ToolsOnly(e: Engine, f: Engine)
  {
    f == e.(plan := f.plan, planOps := f.planOps, trajectory := f.trajectory, files := f.files,
            journal := e.journal.(attempts := f.journal.attempts))
  }

  lemma {:induction false} ToolsFrame(cfg: Config, e: Engine, calls: seq<Call>, tools: nat -> ToolOracle, k: nat)
    requires k <= |calls|
    ensures var (f, results) := ToolsAfter(cfg, e, calls, tools, k);
      ToolsOnly(e, f) && |f.trajectory| == |e.trajectory| + k && |results| == k
    decreases k
  {
    if k > 0 {
      ToolsFrame(cfg, e, calls, tools, k - 1);
    }
  }

  /** The last report of a decision to retry; the retry counter moves with it. */
  ghost predicate RetryAdded(cfg: Config, e: Engine, f: Engine)
  {
    && |f.retries| == |e.retries| + 1 && f.retries[..|e.retries|] == e.retries
    && f.retries[|e.retries|].status == Retry
    && f.retries[|e.retries|].retryIndex == RetryCount(e.retries) + 1 <= cfg.maxRetries
  }

  /** At most a decision against a retry is added. */
  ghost predicate NoRetryAdded(e: Engine, f: Engine)
  {
    f.retries == e.retries
    || (|f.retries| == |e.retries| + 1 && f.retries[..|e.retries|] == e.retries
        && f.retries[|e.retries|].status != Retry)
  }

  ghost predicate ScheduledFrame(e: Engine, f: Engine)
  {
    f == e.(plan := f.plan, planOps := f.planOps, retries := f.retries, messages := f.messages)
  }

  lemma RetryingShape(cfg: Config, e: Engine, d: Decision, prompt: string)
    ensures var f := Retrying(cfg, e, d, prompt);
      && ScheduledFrame(e, f) && f.retries == e.retries + [d]
      && f.messages == Trimmed(cfg.maxContextMessages, e.messages + [Message(User, Plain(prompt))])
  {
    assert PlanOnly(e, Repaired(cfg, e, RepairOf(d)));
  }

  lemma StoppingShape(e: Engine, d: Decision)
    ensures var f := Stopping(e, d);
      ScheduledFrame(e, f) && f.retries == e.retries + [d] && f.messages == e.messages
  {
  }

  lemma DecisionShape(cfg: Config, e: Engine, o: CompletionOracle) returns (d: Decision)
    ensures d == DecisionFor(cfg, e, o)
    ensures d.status == Retry ==> d.retryIndex == RetryCount(e.retries) + 1 <= cfg.maxRetries
  {
    d := DecisionFor(cfg, e, o);
  }

  lemma ScheduledShape(cfg: Config, e: Engine, o: CompletionOracle)
    ensures var (f, again) := Scheduled(cfg, e, o);
      && ScheduledFrame(e, f)
      && (if again then
            RetryAdded(cfg, e, f)
            && f.messages == Trimmed(cfg.maxContextMessages, e.messages + [Message(User, Plain(o.prompt))])
          else NoRetryAdded(e, f) && f.messages == e.messages)
  {
    if cfg.maxRetries > 0 {
      var d := DecisionShape(cfg, e, o);
      assert (e.retries + [d])[..|e.retries|] == e.retries;
      if d.status == Retry {
        RetryingShape(cfg, e, d, o.prompt);
      } else {
        StoppingShape(e, d);
      }
    }
  }

  /** A retry is scheduled only for a failure that no blocking evidence speaks against. */
  lemma RetryNeedsCleanEvidence(cfg: Config, e: Engine, o: CompletionOracle)
    requires Scheduled(cfg, e, o).1
    ensures cfg.reflectionOn && RetryCount(e.retries) < cfg.maxRetries
    ensures !SandboxRefused(e.verification) && !CriticalPolicy(e.policy) && !RollbackIncomplete(e.rollback)
  {
    RetryableExactly(e.verification, e.policy, e.trajectory, e.rollback);
  }

  /** The parts of the state a completion does not touch. */
  ghost predicate CompletionFrame(e: Engine, f: Engine)
  {
    && f.trajectory == e.trajectory && f.budget == e.budget
    && f.journal == e.journal.(
        verifications := e.journal.verifications + 1, policies := f.journal.policies,
        rollbacks := f.journal.rollbacks, ends := f.journal.ends)
  }

  ghost predicate CompletionEnds(e: Engine, f: Engine)
  {
    && f.status in {TaskSucceeded, TaskFailed}
    && f.journal.ends == e.journal.ends + [f.status == TaskSucceeded]
    && NoRetryAdded(e, f) && f.messages == e.messages
  }

  ghost predicate CompletionGoesOn(cfg: Config, e: Engine, f: Engine, prompt: string)
  {
    && f.status == e.status && f.journal.ends == e.journal.ends
    && RetryAdded(cfg, e, f)
    && f.messages == Trimmed(cfg.maxContextMessages, e.messages + [Message(User, Plain(prompt))])
  }

  lemma RollbackFrameOf(cfg: Config, e: Engine, failed: bool, restore: nat -> RestoreIo)
    ensures var f := Reflecting(cfg, if failed && cfg.autoRollback then RolledBack(e, restore) else e);
      f == e.(files := f.files, rollback := f.rollback, reflection := f.reflection,
              journal := e.journal.(rollbacks := f.journal.rollbacks))
  {
  }

  lemma AfterFailureShape(cfg: Config, e: Engine, failed: bool, o: CompletionOracle)
    ensures var (f, done) := AfterFailure(cfg, e, failed, o);
      && f.trajectory == e.trajectory && f.budget == e.budget
      && f.journal == e.journal.(rollbacks := f.journal.rollbacks, ends := f.journal.ends)
      && (if done then f.status == TaskFailed && CompletionEnds(e, f) else CompletionGoesOn(cfg, e, f, o.prompt))
  {
    var e2 := Reflecting(cfg, if failed && cfg.autoRollback then RolledBack(e, o.restore) else e);
    RollbackFrameOf(cfg, e, failed, o.restore);
    ScheduledShape(cfg, e2, o);
    var (e3, again) := Scheduled(cfg, e2, o);
    if !again {
      StoppedShape(e2, e3, o.summary);
    }
  }

  lemma StoppedShape(e: Engine, f: Engine, text: string)
    requires ScheduledFrame(e, f) && NoRetryAdded(e, f) && f.messages == e.messages
    ensures var g := End(FailedBy(f, Mark(FINAL_RESPONSE, Blocked, text)), false);
      && g.trajectory == e.trajectory && g.budget == e.budget && g.status == TaskFailed
      && g.journal == e.journal.(ends := g.journal.ends) && CompletionEnds(e, g)
  {
  }

  ghost function CheckOf(cfg: Config, e: Engine): PolicyCheck
  {
    CheckFor(e.budget.turns, Evaluated(cfg.limits, PatchesOf(e.trajectory)))
  }

  /** The check entry says what the report says. */
  ghost predicate Reports(policy: Option<PolicyReport>, check: PolicyCheck)
  {
    policy.Some? && (check.failed <==> policy.value.status == Failed) && (check.critical <==> CriticalPolicy(policy))
  }

  ghost predicate JudgedFrom(cfg: Config, e: Engine, r: VerificationReport, f: Engine)
  {
    && f == e.(plan := f.plan, planOps := f.planOps, verification := Some(r), policy := f.policy,
               journal := e.journal.(verifications := e.journal.verifications + 1, policies := f.journal.policies))
    && f.journal.policies == e.journal.policies + (if cfg.policyOn then [CheckOf(cfg, e)] else [])
    && (cfg.policyOn ==> Reports(f.policy, CheckOf(cfg, e)))
  }

  lemma JudgedShape(cfg: Config, e: Engine, r: VerificationReport)
    ensures JudgedFrom(cfg, e, r, Judged(cfg, e, r))
  {
    var e1 := Verifying(e);
    PlanAllFrame(e1.(verification := Some(r)), VerificationMarks(r));
  }

  lemma CompleteShape(cfg: Config, e: Engine, o: CompletionOracle)
    ensures var (f, done) := Complete(cfg, e, o);
      CompletionFrame(e, f) && if done then CompletionEnds(e, f) else CompletionGoesOn(cfg, e, f, o.prompt)
  {
    if o.verdict.Some? {
      var r := o.verdict.value;
      var e2 := Judged(cfg, e, r);
      JudgedShape(cfg, e, r);
      if r.status.CheckFailed? || PolicyFailed(cfg, e2) {
        AfterFailureShape(cfg, e2, r.status.CheckFailed?, o);
      }
    }
  }

  // ---------------------------------------------------------------------
  // The invariant
  // ---------------------------------------------------------------------

  ghost predicate BelowCap(cfg: Config, toolCalls: nat)
  {
    cfg.maxToolCalls.Some? ==> toolCalls < MaxInt(0, cfg.maxToolCalls.value)
  }

  /** The batches partition the tool calls, and each began below the cap. */
  ghost predicate BatchesAdd(cfg: Config, batches: seq<Batch>, toolCalls: nat)
  {
    if batches == [] then toolCalls == 0
    else
      var last := batches[|batches| - 1];
      last.before + last.size == toolCalls && BelowCap(cfg, last.before)
      && BatchesAdd(cfg, batches[..|batches| - 1], last.before)
  }

  /** The counters agree with what happened. */
  ghost predicate Counted(cfg: Config, e: Engine)
  {
    && |e.trajectory| == e.budget.toolCalls
    && |e.journal.models| == e.budget.turns
    && BatchesAdd(cfg, e.journal.batches, e.budget.toolCalls)
  }

  /** Before turn k. */
  ghost predicate Running(cfg: Config, e: Engine, k: nat)
  {
    && Counted(cfg, e)
    && e.status == TaskRunning && e.budget.exhausted.None? && e.budget.turns == k
    && e.journal.ends == [] && e.journal.closings == 0
    && e.journal.verifications == |e.retries| == RetryCount(e.retries) <= MaxInt(0, cfg.maxRetries)
  }

  /** Why a run may end as a success. */
  ghost predicate Justified(cfg: Config, e: Engine)
  {
    && e.budget.exhausted.None? && BelowCap(cfg, e.budget.toolCalls)
    && e.verification.Some? && !e.verification.value.status.CheckFailed?
    && (cfg.policyOn ==> e.policy.Some? && e.policy.value.status != Failed)
  }

  /** After the last turn, with at most n turns begun. */
  ghost predicate Ended(cfg: Config, e: Engine, n: nat)
  {
    && Counted(cfg, e) && e.budget.turns <= n
    && e.status in {TaskSucceeded, TaskFailed}
    && e.journal.ends == [e.status == TaskSucceeded] && e.journal.closings == 0
    && (e.status == TaskSucceeded ==> Justified(cfg, e))
    && RetryCount(e.retries) <= MaxInt(0, cfg.maxRetries)
    && e.journal.verifications <= MaxInt(0, cfg.maxRetries) + 1
  }

  lemma RetryCountSnoc(retries: seq<Decision>, more: seq<Decision>)
    requires |more| == |retries| + 1 && more[..|retries|] == retries
    ensures RetryCount(more) == RetryCount(retries) + if more[|retries|].status == Retry then 1 else 0
  {
  }

  lemma SucceededIsJustified(cfg: Config, e: Engine, o: CompletionOracle)
    requires e.budget.exhausted.None? && BelowCap(cfg, e.budget.toolCalls)
    requires Complete(cfg, e, o).1 && Complete(cfg, e, o).0.status == TaskSucceeded
    ensures Justified(cfg, Complete(cfg, e, o).0)
  {
    if o.verdict.Some? {
      var r := o.verdict.value;
      var e2 := Judged(cfg, e, r);
      JudgedShape(cfg, e, r);
      if r.status.CheckFailed? || PolicyFailed(cfg, e2) {
        AfterFailureShape(cfg, e2, r.status.CheckFailed?, o);
      }
    }
  }

  lemma CompleteLedger(cfg: Config, e: Engine, o: CompletionOracle, k: nat)
    requires Running(cfg, e, k) && BelowCap(cfg, e.budget.toolCalls)
    ensures var (f, done) := Complete(cfg, e, o);
      if done then Ended(cfg, f, k) else Running(cfg, f, k)
  {
    var (f, done) := Complete(cfg, e, o);
    CompleteShape(cfg, e, o);
    if f.retries != e.retries {
      RetryCountSnoc(e.retries, f.retries);
    }
    if done {
      assert [] + [f.status == TaskSucceeded] == [f.status == TaskSucceeded];
      if f.status == TaskSucceeded {
        SucceededIsJustified(cfg, e, o);
      }
    }
  }

  lemma BatchLedger(cfg: Config, e: Engine, calls: seq<Call>, tools: nat -> ToolOracle, k: nat)
    requires Running(cfg, e, k) && BelowCap(cfg, e.budget.toolCalls)
    ensures Running(cfg, AfterBatch(cfg, e, calls, tools), k)
  {
    ToolsFrame(cfg, e, calls, tools, |calls|);
    var f := AfterBatch(cfg, e, calls, tools);
    assert f.journal.batches[..|e.journal.batches|] == e.journal.batches;
  }

  lemma BudgetLedger(cfg: Config, e: Engine, k: nat, reason: Reason, text: string)
    requires Running(cfg, e, k)
    ensures Ended(cfg, FailForBudget(e, reason, text), k)
  {
    assert e.journal.ends + [false] == [false];
  }

  lemma AfterResponseLedger(cfg: Config, e: Engine, calls: seq<Call>, o: TurnOracle, k: nat)
    requires Running(cfg, e, k)
    ensures var (f, out) := AfterResponse(cfg, e, calls, o);
      out != Raised && if out == Continue then Running(cfg, f, k) else Ended(cfg, f, k)
  {
    var reason := LimitReason(cfg, e.budget, o.responseClock);
    if reason.Some? {
      BudgetLedger(cfg, e, k, reason.value, ReasonText(reason.value));
    } else if calls == [] {
      CompleteLedger(cfg, e, o.completion, k);
    } else {
      BatchLedger(cfg, e, calls, o.tools, k);
      var f := AfterBatch(cfg, e, calls, o.tools);
      var spent := LimitReason(cfg, f.budget, o.toolsClock);
      if spent.Some? {
        BudgetLedger(cfg, f, k, spent.value, ReasonText(spent.value));
      }
    }
  }

  lemma TurnLedger(cfg: Config, e: Engine, o: TurnOracle, k: nat)
    requires Running(cfg, e, k)
    ensures var (f, out) := Turn(cfg, e, o);
      if out == Continue then Running(cfg, f, k + 1) else Ended(cfg, f, k + 1)
    ensures Turn(cfg, e, o).1 == Raised ==> Turn(cfg, e, o).0.status == TaskFailed
  {
    var reason := LimitReason(cfg, e.budget, o.beginClock);
    if reason.Some? {
      BudgetLedger(cfg, e, k, reason.value, ReasonText(reason.value));
    } else {
      var e1 := BeginTurn(e);
      assert Running(cfg, e1, k + 1);
      if o.response.Some? {
        var blocks := o.response.value;
        AfterResponseLedger(
          cfg, Say(cfg, e1, Message(Assistant, Blocks(blocks))), CallsOf(blocks), o, k + 1);
      } else {
        assert e1.journal.ends + [false] == [false];
      }
    }
  }

  lemma {:induction false} LoopLedger(cfg: Config, e: Engine, env: nat -> TurnOracle, k: nat)
    requires Running(cfg, e, k) && k <= MaxInt(0, cfg.maxTurns)
    ensures var (f, out) := Loop(cfg, e, env, k);
      Ended(cfg, f, MaxInt(0, cfg.maxTurns)) && out != Continue && (out == Raised ==> f.status == TaskFailed)
    decreases cfg.maxTurns - k
  {
    if k >= cfg.maxTurns {
      assert e.journal.ends + [false] == [false];
    } else {
      TurnLedger(cfg, e, env(k), k);
      var (f, out) := Turn(cfg, e, env(k));
      if out == Continue {
        LoopLedger(cfg, f, env, k + 1);
      }
    }
  }

  lemma OpenedIsRunning(cfg: Config, files: Files, opening: Opening)
    ensures Running(cfg, Opened(cfg, files, opening), 0)
  {
  }

  // ---------------------------------------------------------------------
  // Whole runs
  // ---------------------------------------------------------------------

  /**
   * A run that returns ends as SUCCEEDED or FAILED with exactly one terminal event,
   * and SUCCEEDED only if the last verification and policy reports did not fail,
   * the budget is not exhausted, and the tool calls stayed below the cap.
   */
  lemma RunEndsOnce(cfg: Config, files: Files, opening: Opening, env: nat -> TurnOracle)
    ensures var (e, out) := Run(cfg, files, opening, env);
      && out != Continue && (out == Raised ==> e.status == TaskFailed)
      && e.status in {TaskSucceeded, TaskFailed}
      && e.journal.ends == [e.status == TaskSucceeded] && e.journal.closings == 1
      && (e.status == TaskSucceeded ==> Justified(cfg, e))
  {
    OpenedIsRunning(cfg, files, opening);
    LoopLedger(cfg, Opened(cfg, files, opening), env, 0);
  }

  /** The counters of a run against its limits, whatever the environment does. */
  lemma RunAccounting(cfg: Config, files: Files, opening: Opening, env: nat -> TurnOracle)
    ensures var e := Run(cfg, files, opening, env).0;
      && |e.trajectory| == e.budget.toolCalls
      && |e.journal.models| == e.budget.turns <= MaxInt(0, cfg.maxTurns)
      && RetryCount(e.retries) <= MaxInt(0, cfg.maxRetries)
      && e.journal.verifications <= MaxInt(0, cfg.maxRetries) + 1
      && BatchesAdd(cfg, e.journal.batches, e.budget.toolCalls)
  {
    OpenedIsRunning(cfg, files, opening);
    LoopLedger(cfg, Opened(cfg, files, opening), env, 0);
  }

  /**
   * With a cap on tool calls only the last batch can go past it. A cap of zero is
   * exceeded by no batch at all: then no tool runs.
   */
  lemma OnlyLastBatchOverruns(cfg: Config, files: Files, opening: Opening, env: nat -> TurnOracle)
    requires cfg.maxToolCalls.Some?
    ensures var e := Run(cfg, files, opening, env).0;
      var cap, batches := MaxInt(0, cfg.maxToolCalls.value), e.journal.batches;
      if batches == [] then e.budget.toolCalls == 0
      else cap > 0 && e.budget.toolCalls <= cap - 1 + batches[|batches| - 1].size
  {
    RunAccounting(cfg, files, opening, env);
  }
}
