// When a completion succeeds, when it is retried, and what a run's success comes from:
// conditions on the verdicts and the budget alone, both ways.
module RunOutcome {
  import opened Text
  import opened Patching
  import opened PatchPolicy
  import opened RunTypes
  import opened Reflection
  import opened Planning
  import opened Evidence
  import opened RunSpec
  import opened RunLedger
  import opened RunVerdicts

  // ---------------------------------------------------------------------
  // Retries
  // ---------------------------------------------------------------------

  /** Evidence that rules a retry out. */
  ghost predicate RuledOut(
      verification: Option<VerificationReport>, policy: Option<PolicyReport>, rollback: Option<RollbackReport>)
  {
    SandboxRefused(verification) || CriticalPolicy(policy) || RollbackIncomplete(rollback)
  }

  /** Reflection is on, a retry is left, and no evidence rules it out. */
  ghost predicate MayRetry(
      cfg: Config, retries: seq<Decision>, verification: Option<VerificationReport>, policy: Option<PolicyReport>,
      rollback: Option<RollbackReport>)
  {
    cfg.reflectionOn && RetryCount(retries) < cfg.maxRetries && !RuledOut(verification, policy, rollback)
  }

  /** Why no retry is scheduled, in the order of the checks. */
  ghost function Refusal(cfg: Config, e: Engine): DecisionStatus
  {
    if !cfg.reflectionOn then NoReflection
    else if RuledOut(e.verification, e.policy, e.rollback) then NonRetryable
    else DecisionStatus.Exhausted
  }

  lemma DecisionExactly(cfg: Config, e: Engine, o: CompletionOracle)
    requires cfg.maxRetries > 0
    ensures DecisionFor(cfg, e, o).status ==
      if MayRetry(cfg, e.retries, e.verification, e.policy, e.rollback) then Retry else Refusal(cfg, e)
  {
    RetryableExactly(e.verification, e.policy, e.trajectory, e.rollback);
    StrategyNeverStops(e.verification, e.policy, e.trajectory, e.rollback, true);
    StrategyNeverStops(e.verification, e.policy, e.trajectory, e.rollback, false);
  }

  /** A retry is scheduled exactly then. */
  lemma RetryScheduledExactly(cfg: Config, e: Engine, o: CompletionOracle)
    ensures Scheduled(cfg, e, o).1 <==> MayRetry(cfg, e.retries, e.verification, e.policy, e.rollback)
  {
    if cfg.maxRetries > 0 {
      DecisionExactly(cfg, e, o);
    }
  }

  /** The recorded decision says why not; with retries off none is recorded. */
  lemma RefusalExactly(cfg: Config, e: Engine, o: CompletionOracle)
    requires !Scheduled(cfg, e, o).1
    ensures var f := Scheduled(cfg, e, o).0;
      if cfg.maxRetries <= 0 then f == e
      else |f.retries| == |e.retries| + 1 && f.retries[..|e.retries|] == e.retries
           && f.retries[|e.retries|].status == Refusal(cfg, e)
  {
    if cfg.maxRetries > 0 {
      DecisionExactly(cfg, e, o);
      RetryScheduledExactly(cfg, e, o);
      StoppingShape(e, DecisionFor(cfg, e, o));
    }
  }

  // ---------------------------------------------------------------------
  // One completion
  // ---------------------------------------------------------------------

  /** The verifier answered, its report did not fail, and no policy limit is breached. */
  ghost predicate Succeeds(cfg: Config, e: Engine, o: CompletionOracle)
  {
    && o.verdict.Some? && !o.verdict.value.status.CheckFailed?
    && !(cfg.policyOn && Breach(cfg.limits, PatchesOf(e.trajectory)))
  }

  /** The policy report a retry is decided from. */
  ghost function PolicyAt(cfg: Config, e: Engine): Option<PolicyReport>
  {
    if cfg.policyOn then Some(Evaluated(cfg.limits, PatchesOf(e.trajectory))) else e.policy
  }

  ghost function RollbackAt(cfg: Config, e: Engine, o: CompletionOracle): Option<RollbackReport>
  {
    if RollsBack(cfg, o) then Some(RollbackOf(e, o.restore).report) else e.rollback
  }

  /** The verifier answered, the attempt failed, and a retry may follow. */
  ghost predicate Retries(cfg: Config, e: Engine, o: CompletionOracle)
  {
    && o.verdict.Some? && !Succeeds(cfg, e, o)
    && MayRetry(cfg, e.retries, o.verdict, PolicyAt(cfg, e), RollbackAt(cfg, e, o))
  }

  lemma PolicyFailsExactly(cfg: Config, e: Engine, r: VerificationReport)
    ensures var judged := Judged(cfg, e, r);
      && (PolicyFailed(cfg, judged) <==> cfg.policyOn && Breach(cfg.limits, PatchesOf(e.trajectory)))
      && judged.policy == PolicyAt(cfg, e)
      && JudgedFrom(cfg, e, r, judged)
  {
    JudgedShape(cfg, e, r);
    PlanAllFrame(Verifying(e).(verification := Some(r)), VerificationMarks(r));
    FailedExactly(cfg.limits, PatchesOf(e.trajectory));
  }

  /** Where a failed attempt is decided. */
  lemma FailureExactly(cfg: Config, e: Engine, judged: Engine, o: CompletionOracle)
    requires o.verdict.Some? && JudgedFrom(cfg, e, o.verdict.value, judged) && judged.policy == PolicyAt(cfg, e)
    ensures var (f, done) := AfterFailure(cfg, judged, o.verdict.value.status.CheckFailed?, o);
      && (!done <==> MayRetry(cfg, e.retries, o.verdict, PolicyAt(cfg, e), RollbackAt(cfg, e, o)))
      && f.status == if done then TaskFailed else e.status
  {
    var failed := o.verdict.value.status.CheckFailed?;
    SameRollback(e, judged, o.restore);
    AfterFailureShape(cfg, judged, failed, o);
    var reflected := Reflecting(cfg, if failed && cfg.autoRollback then RolledBack(judged, o.restore) else judged);
    RetryScheduledExactly(cfg, reflected, o);
  }

  /** What a completion came to. */
  ghost predicate CompletionTells(cfg: Config, e: Engine, o: CompletionOracle, f: Engine, done: bool)
  {
    && (f.status == TaskSucceeded <==> Succeeds(cfg, e, o))
    && (!done <==> Retries(cfg, e, o))
    && (f.status == TaskFailed <==> !Succeeds(cfg, e, o) && !Retries(cfg, e, o))
  }

  /**
   * A completion of a running task ends it as a success, ends it as a failure, or goes
   * on to a retry; which one depends on the verdict, the patches and the retries so far.
   */
  lemma CompletionExactly(cfg: Config, e: Engine, o: CompletionOracle)
    requires e.status == TaskRunning
    ensures CompletionTells(cfg, e, o, Complete(cfg, e, o).0, Complete(cfg, e, o).1)
  {
    if o.verdict.Some? {
      var r := o.verdict.value;
      PolicyFailsExactly(cfg, e, r);
      if !Succeeds(cfg, e, o) {
        FailureExactly(cfg, e, Judged(cfg, e, r), o);
      }
    }
  }

  // ---------------------------------------------------------------------
  // What of it stands in the plan
  // ---------------------------------------------------------------------

  /** The step of the kind, if there is one, has this status and evidence. */
  predicate Stands(p: Option<PlanView>, kind: string, status: StepStatus, evidence: string)
  {
    p.Some? && var i := StepIndex(p.value, kind);
      i < |p.value| ==> p.value[i].status == status && p.value[i].evidence == evidence
  }

  /** Blocking takes effect on a DONE step too; starting a step does not. */
  lemma MarkStands(e: Engine, kind: string, status: StepStatus, evidence: string)
    requires e.plan.Some?
    ensures var p := Plan(e, Mark(kind, status, evidence)).plan;
      Stands(p, kind, status, evidence)
      || (!status.Blocked? && p == e.plan && var i := StepIndex(p.value, kind);
            i < |p.value| && p.value[i].status.Done?)
  {
    SameIndexes(e.plan.value, SetStep(e.plan.value, kind, status, evidence));
  }

  lemma FailedByStands(e: Engine, kind: string, text: string)
    requires e.plan.Some?
    ensures Stands(FailedBy(e, Mark(kind, Blocked, text)).plan, kind, Blocked, text)
  {
    MarkStands(e.(status := TaskFailed), kind, Blocked, text);
  }

  /** The recovery step is at work, unless it was DONE. */
  ghost predicate Recovers(p: Option<PlanView>)
  {
    p.Some? && var i := StepIndex(p.value, RECOVER_FAILURE);
      i < |p.value| ==> p.value[i].status.InProgress? || p.value[i].status.Done?
  }

  lemma ScheduledStands(cfg: Config, e: Engine, o: CompletionOracle)
    requires e.plan.Some?
    ensures var (f, again) := Scheduled(cfg, e, o); f.plan.Some? && (again ==> Recovers(f.plan))
  {
    if cfg.maxRetries > 0 {
      var d := DecisionFor(cfg, e, o);
      if d.status == Retry {
        var repaired := Repaired(cfg, e, RepairOf(d));
        MarkStands(repaired.(retries := repaired.retries + [d]), RECOVER_FAILURE, InProgress,
                   "reflection report is retryable and budget remains");
      }
    }
  }

  /** Why the recovery step is blocked. */
  ghost function RefusalText(cfg: Config, e: Engine): string
  {
    if !cfg.reflectionOn then "no reflection report is available"
    else if RuledOut(e.verification, e.policy, e.rollback) then "the failure is not retryable"
    else "reflection retry budget exhausted"
  }

  /** Where retries are configured, a refusal blocks the recovery step with its reason. */
  lemma RefusalStands(cfg: Config, e: Engine, o: CompletionOracle)
    requires e.plan.Some? && cfg.maxRetries > 0 && !Scheduled(cfg, e, o).1
    ensures Stands(Scheduled(cfg, e, o).0.plan, RECOVER_FAILURE, StepStatus.Blocked, RefusalText(cfg, e))
  {
    var d := DecisionFor(cfg, e, o);
    DecisionExactly(cfg, e, o);
    RetryScheduledExactly(cfg, e, o);
    MarkStands(e.(retries := e.retries + [d]), RECOVER_FAILURE, StepStatus.Blocked, RefusalText(cfg, e));
    StoppedWith(cfg, e, o);
  }

  lemma StoppedWith(cfg: Config, e: Engine, o: CompletionOracle)
    requires cfg.maxRetries > 0 && !Scheduled(cfg, e, o).1
    ensures DecisionFor(cfg, e, o).status == Refusal(cfg, e)
    ensures var d := DecisionFor(cfg, e, o);
      Scheduled(cfg, e, o).0
        == Plan(e.(retries := e.retries + [d]), Mark(RECOVER_FAILURE, StepStatus.Blocked, RefusalText(cfg, e)))
  {
    DecisionExactly(cfg, e, o);
    RetryScheduledExactly(cfg, e, o);
  }

  lemma RetriedOrFailedStands(cfg: Config, e: Engine, o: CompletionOracle)
    requires e.plan.Some?
    ensures var (f, done) := RetriedOrFailed(cfg, e, o);
      if done then Stands(f.plan, FINAL_RESPONSE, Blocked, o.summary) else Recovers(f.plan)
  {
    ScheduledStands(cfg, e, o);
    FailedByStands(Scheduled(cfg, e, o).0, FINAL_RESPONSE, o.summary);
  }

  lemma JudgedPlan(cfg: Config, e: Engine, r: VerificationReport)
    requires e.plan.Some?
    ensures Judged(cfg, e, r).plan.Some?
  {
    var e1 := Verifying(e).(verification := Some(r));
    PlanStays(e1, VerificationMarks(r));
  }

  lemma {:induction false} PlanStays(e: Engine, ops: seq<PlanOp>)
    requires e.plan.Some?
    ensures PlanAll(e, ops).plan.Some?
    decreases |ops|
  {
    if ops != [] {
      PlanStays(e, ops[..|ops| - 1]);
    }
  }

  /** What is left in the plan by a completion that is not a success. */
  ghost predicate PlanShows(o: CompletionOracle, f: Engine, done: bool)
  {
    if o.verdict.None? then Stands(f.plan, VERIFY_OUTCOME, Blocked, o.error)
    else if done then Stands(f.plan, FINAL_RESPONSE, Blocked, o.summary)
    else Recovers(f.plan)
  }

  /** An error of the verifier blocks the outcome step, a failure the final response; a retry starts the recovery. */
  lemma FailureShowsInPlan(cfg: Config, e: Engine, o: CompletionOracle)
    requires e.status == TaskRunning && e.plan.Some? && !Succeeds(cfg, e, o)
    ensures PlanShows(o, Complete(cfg, e, o).0, Complete(cfg, e, o).1)
  {
    if o.verdict.None? {
      FailedByStands(Verifying(e), VERIFY_OUTCOME, o.error);
    } else {
      var r := o.verdict.value;
      var judged := Judged(cfg, e, r);
      PolicyFailsExactly(cfg, e, r);
      JudgedPlan(cfg, e, r);
      FailureStands(cfg, judged, r.status.CheckFailed?, o);
    }
  }

  lemma FailureStands(cfg: Config, e: Engine, failed: bool, o: CompletionOracle)
    requires e.plan.Some?
    ensures var (f, done) := AfterFailure(cfg, e, failed, o);
      if done then Stands(f.plan, FINAL_RESPONSE, Blocked, o.summary) else Recovers(f.plan)
  {
    var e1 := if failed && cfg.autoRollback then RolledBack(e, o.restore) else e;
    RetriedOrFailedStands(cfg, Reflecting(cfg, e1), o);
  }

  ghost function FindingsOf(e: Engine): Findings
  {
    Findings(e.verification, e.policy, e.trajectory, e.rollback)
  }

  /** Two operations follow: the repair that the findings call for, and the start of the recovery. */
  ghost predicate Repairs(
      ops: seq<PlanOp>, more: seq<PlanOp>, f: Findings, attempted: nat, ranked: bool, matrix: bool)
  {
    && |more| == |ops| + 2 && more[..|ops|] == ops
    && Fits(more[|ops|], f, attempted, ranked, matrix)
    && more[|ops| + 1].Mark? && more[|ops| + 1].kind == RECOVER_FAILURE
  }

  /** What a retry records in the plan. */
  lemma RetryReopens(cfg: Config, e: Engine, o: CompletionOracle)
    requires cfg.planning && e.plan.Some? && Scheduled(cfg, e, o).1
    ensures Repairs(e.planOps, Scheduled(cfg, e, o).0.planOps, FindingsOf(e), RetryCount(e.retries),
                    cfg.rankingOn && o.ranked, cfg.matrix)
  {
    ScheduledIs(cfg, e, o);
    RetryingOps(cfg, e, DecisionFor(cfg, e, o), o.prompt);
    DecidedFromFindings(cfg, e, o);
  }

  lemma ScheduledIs(cfg: Config, e: Engine, o: CompletionOracle)
    requires Scheduled(cfg, e, o).1
    ensures Scheduled(cfg, e, o).0 == Retrying(cfg, e, DecisionFor(cfg, e, o), o.prompt)
  {
  }

  lemma RetryingOps(cfg: Config, e: Engine, d: Decision, prompt: string)
    requires cfg.planning && e.plan.Some?
    ensures Retrying(cfg, e, d, prompt).planOps == e.planOps + [RepairOf(d),
      Mark(RECOVER_FAILURE, InProgress, "reflection report is retryable and budget remains")]
  {
  }

  lemma DecidedFromFindings(cfg: Config, e: Engine, o: CompletionOracle)
    requires Scheduled(cfg, e, o).1
    ensures Fits(RepairOf(DecisionFor(cfg, e, o)), FindingsOf(e), RetryCount(e.retries), cfg.rankingOn && o.ranked, cfg.matrix)
  {
    DecisionOf(cfg, e, o);
    RepairFits(FindingsOf(e), RetryCount(e.retries), cfg.maxRetries, cfg.rankingOn && o.ranked, cfg.matrix);
  }

  lemma DecisionOf(cfg: Config, e: Engine, o: CompletionOracle)
    requires Scheduled(cfg, e, o).1
    ensures DecisionFor(cfg, e, o)
      == Decide(Some(FindingsOf(e).Report()), RetryCount(e.retries), cfg.maxRetries, cfg.rankingOn && o.ranked, cfg.matrix)
    ensures DecisionFor(cfg, e, o).status == Retry
  {
  }

  // ---------------------------------------------------------------------
  // What of it is recorded
  // ---------------------------------------------------------------------

  /** The reflection on what the state holds, where reflection is on. */
  ghost predicate Reflects(cfg: Config, before: Option<ReflectionReport>, f: Engine)
  {
    f.reflection == if cfg.reflectionOn then Some(FindingsOf(f).Report()) else before
  }

  /** The verdicts a completion leaves in the state, and the reflection on them if it is not a success. */
  ghost predicate Records(cfg: Config, e: Engine, o: CompletionOracle, f: Engine)
  {
    if o.verdict.None? then
      FindingsOf(f) == FindingsOf(e) && Reflects(cfg, e.reflection, f)
    else
      && f.verification == o.verdict && f.policy == PolicyAt(cfg, e) && f.trajectory == e.trajectory
      && if Succeeds(cfg, e, o) then f.rollback == e.rollback && f.reflection == e.reflection
         else f.rollback == RollbackAt(cfg, e, o) && Reflects(cfg, e.reflection, f)
  }

  lemma CompletionRecords(cfg: Config, e: Engine, o: CompletionOracle)
    requires e.status == TaskRunning
    ensures Records(cfg, e, o, Complete(cfg, e, o).0)
  {
    if o.verdict.Some? {
      var r := o.verdict.value;
      PolicyFailsExactly(cfg, e, r);
      if !Succeeds(cfg, e, o) {
        FailureRecords(cfg, e, Judged(cfg, e, r), o);
      }
    }
  }

  lemma FailureRecords(cfg: Config, e: Engine, judged: Engine, o: CompletionOracle)
    requires o.verdict.Some? && JudgedFrom(cfg, e, o.verdict.value, judged) && judged.policy == PolicyAt(cfg, e)
    ensures var f := AfterFailure(cfg, judged, o.verdict.value.status.CheckFailed?, o).0;
      && f.verification == o.verdict && f.policy == PolicyAt(cfg, e) && f.trajectory == e.trajectory
      && f.rollback == RollbackAt(cfg, e, o) && Reflects(cfg, e.reflection, f)
  {
    var failed := o.verdict.value.status.CheckFailed?;
    SameRollback(e, judged, o.restore);
    var reflected := Reflecting(cfg, if failed && cfg.autoRollback then RolledBack(judged, o.restore) else judged);
    ScheduledShape(cfg, reflected, o);
    DecisionKeeps(cfg, reflected, o);
  }

  lemma DecisionKeeps(cfg: Config, e: Engine, o: CompletionOracle)
    ensures var f := RetriedOrFailed(cfg, e, o).0; FindingsOf(f) == FindingsOf(e) && f.reflection == e.reflection
  {
    ScheduledShape(cfg, e, o);
  }
}
