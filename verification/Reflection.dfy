// Failure reflection and the retry decision made from it.
module Reflection {
  import opened Text
  import opened Patching
  import opened PatchPolicy
  import opened RunTypes

  datatype Category =
    | VerificationFailed | TestFailure | SandboxTimeoutCategory | SandboxViolationCategory | SandboxErrorCategory
    | TaskConstraintViolation | PatchPolicyViolation | ToolErrors | NoFinalResponse | NoProgress
    | RollbackFailed | UnknownCause

  /** critical is the evidence flag of a patch policy signal. */
  datatype Signal = Signal(category: Category, critical: bool)

  datatype ReflectionReport = ReflectionReport(retryable: bool, signals: seq<Signal>)

  // ---------------------------------------------------------------------
  // The reflector
  // ---------------------------------------------------------------------

  function HasTestFailures(t: TestResult): bool
  {
    t.recognized && (t.failed > 0 || t.errors > 0 || t.reportedFailed)
  }

  function CheckSignals(c: Check): seq<Signal>
  {
    match c
    case FinalResponse(status) => if status.CheckFailed? then [Signal(NoFinalResponse, false)] else []
    case TaskConstraints(status) => if status.CheckFailed? then [Signal(TaskConstraintViolation, false)] else []
    case VerificationCommand(status, sandbox, timedOut, tests) =>
      (if sandbox.SandboxTimedOut? || timedOut then [Signal(SandboxTimeoutCategory, false)]
       else if sandbox.SandboxViolation? then [Signal(SandboxViolationCategory, false)]
       else if sandbox.SandboxError? then [Signal(SandboxErrorCategory, false)]
       else [])
      + (if HasTestFailures(tests) then [Signal(TestFailure, false)] else [])
      + (if status.CheckFailed? then [Signal(VerificationFailed, false)] else [])
    case OtherCheck(_) => []
  }

  function AllCheckSignals(checks: seq<Check>): seq<Signal>
  {
    if checks == [] then []
    else AllCheckSignals(checks[..|checks| - 1]) + CheckSignals(checks[|checks| - 1])
  }

  function VerificationSignals(r: VerificationReport): seq<Signal>
  {
    var signals := AllCheckSignals(r.checks);
    if signals == [] && r.status.CheckFailed? then [Signal(VerificationFailed, false)] else signals
  }

  function PolicySignals(r: Option<PolicyReport>): seq<Signal>
  {
    if r.Some? && r.value.status == Failed
    then [Signal(PatchPolicyViolation, exists v | v in r.value.violations :: v.severity == CriticalLevel)]
    else []
  }

  function ToolErrorSignals(trajectory: seq<Step>): seq<Signal>
  {
    if exists s | s in trajectory :: s.isError then [Signal(ToolErrors, false)] else []
  }

  function NoProgressSignals(trajectory: seq<Step>): seq<Signal>
  {
    if trajectory == [] then [Signal(NoProgress, false)]
    else if |trajectory| < 3 then []
    else
      var n := |trajectory|;
      var a, b, c := trajectory[n - 3], trajectory[n - 2], trajectory[n - 1];
      if (a.tool, a.input) == (b.tool, b.input) == (c.tool, c.input) && a.isError && b.isError && c.isError
      then [Signal(NoProgress, false)] else []
  }

  function RollbackSignals(r: Option<RollbackReport>): seq<Signal>
  {
    if r.Some? && r.value.failed > 0 then [Signal(RollbackFailed, false)] else []
  }

  function SignalsOf(verification: Option<VerificationReport>, policy: Option<PolicyReport>,
                     trajectory: seq<Step>, rollback: Option<RollbackReport>): seq<Signal>
  {
    var found := (if verification.Some? then VerificationSignals(verification.value) else [])
      + PolicySignals(policy) + ToolErrorSignals(trajectory) + NoProgressSignals(trajectory)
      + RollbackSignals(rollback);
    if found == [] then [Signal(UnknownCause, false)] else found
  }

  predicate Blocks(s: Signal)
  {
    s.category.SandboxViolationCategory? || s.category.RollbackFailed?
    || (s.category.PatchPolicyViolation? && s.critical)
  }

  predicate IsRetryable(signals: seq<Signal>)
  {
    !exists s | s in signals :: Blocks(s)
  }

  function Reflected(verification: Option<VerificationReport>, policy: Option<PolicyReport>,
                     trajectory: seq<Step>, rollback: Option<RollbackReport>): ReflectionReport
  {
    var signals := SignalsOf(verification, policy, trajectory, rollback);
    ReflectionReport(IsRetryable(signals), signals)
  }

  method Reflect(verification: Option<VerificationReport>, policy: Option<PolicyReport>,
                 trajectory: seq<Step>, rollback: Option<RollbackReport>) returns (report: ReflectionReport)
    ensures report == Reflected(verification, policy, trajectory, rollback)
  {
    var signals: seq<Signal> := [];
    if verification.Some? {
      signals := CollectVerificationSignals(verification.value);
    }
    signals := signals + PolicySignals(policy);
    signals := signals + ToolErrorSignals(trajectory);
    signals := signals + NoProgressSignals(trajectory);
    signals := signals + RollbackSignals(rollback);
    if signals == [] {
      signals := [Signal(UnknownCause, false)];
    }
    report := ReflectionReport(IsRetryable(signals), signals);
  }

  method CollectVerificationSignals(r: VerificationReport) returns (signals: seq<Signal>)
    ensures signals == VerificationSignals(r)
  {
    signals := [];
    var checks := r.checks;
    for i := 0 to |checks|
      invariant signals == AllCheckSignals(checks[..i])
    {
      assert checks[..i + 1][..i] == checks[..i];
      signals := signals + CheckSignals(checks[i]);
    }
    assert checks[..|checks|] == checks;
    if signals == [] && r.status.CheckFailed? {
      signals := [Signal(VerificationFailed, false)];
    }
  }

  /** A command check that the sandbox refused. */
  predicate RefusedBySandbox(c: Check)
  {
    c.VerificationCommand? && c.sandbox.SandboxViolation? && !c.timedOut
  }

  lemma OneCheckBlocks(c: Check)
    ensures AnyBlocks(CheckSignals(c)) <==> RefusedBySandbox(c)
  {
    var signals := CheckSignals(c);
    if RefusedBySandbox(c) {
      assert signals[0] == Signal(SandboxViolationCategory, false);
      assert Blocks(signals[0]);
    } else {
      assert forall i | 0 <= i < |signals| :: !Blocks(signals[i]);
    }
  }

  lemma {:induction false} BlockingChecks(checks: seq<Check>)
    ensures AnyBlocks(AllCheckSignals(checks)) <==> exists c | c in checks :: RefusedBySandbox(c)
  {
    if checks != [] {
      var head, last := checks[..|checks| - 1], checks[|checks| - 1];
      BlockingChecks(head);
      OneCheckBlocks(last);
      BlocksConcat(AllCheckSignals(head), CheckSignals(last));
      assert checks == head + [last];
    }
  }

  /** The evidence that rules a retry out. */
  ghost predicate SandboxRefused(verification: Option<VerificationReport>)
  {
    verification.Some? && exists c | c in verification.value.checks :: RefusedBySandbox(c)
  }

  ghost predicate CriticalPolicy(policy: Option<PolicyReport>)
  {
    policy.Some? && policy.value.status == Failed
    && exists v | v in policy.value.violations :: v.severity == CriticalLevel
  }

  predicate RollbackIncomplete(rollback: Option<RollbackReport>)
  {
    rollback.Some? && rollback.value.failed > 0
  }

  /** What makes a report non-retryable, in terms of the evidence the reflector read. */
  lemma RetryableExactly(verification: Option<VerificationReport>, policy: Option<PolicyReport>,
                         trajectory: seq<Step>, rollback: Option<RollbackReport>)
    ensures Reflected(verification, policy, trajectory, rollback).retryable <==>
      !SandboxRefused(verification) && !CriticalPolicy(policy) && !RollbackIncomplete(rollback)
  {
    var checks := if verification.Some? then VerificationSignals(verification.value) else [];
    CheckBlocks(verification);
    PolicyBlocks(policy);
    assert !AnyBlocks(ToolErrorSignals(trajectory)) && !AnyBlocks(NoProgressSignals(trajectory));
    RollbackBlocks(rollback);
    BlocksConcat(checks, PolicySignals(policy));
    BlocksConcat(checks + PolicySignals(policy), ToolErrorSignals(trajectory));
    BlocksConcat(checks + PolicySignals(policy) + ToolErrorSignals(trajectory), NoProgressSignals(trajectory));
    BlocksConcat(checks + PolicySignals(policy) + ToolErrorSignals(trajectory) + NoProgressSignals(trajectory),
                 RollbackSignals(rollback));
  }

  ghost predicate AnyBlocks(signals: seq<Signal>)
  {
    exists s | s in signals :: Blocks(s)
  }

  lemma BlocksConcat(a: seq<Signal>, b: seq<Signal>)
    ensures AnyBlocks(a + b) <==> AnyBlocks(a) || AnyBlocks(b)
  {
    assert forall s | s in a || s in b :: s in a + b;
    assert forall s | s in a + b :: s in a || s in b;
  }

  lemma CheckBlocks(verification: Option<VerificationReport>)
    ensures AnyBlocks(if verification.Some? then VerificationSignals(verification.value) else [])
      <==> SandboxRefused(verification)
  {
    if verification.Some? {
      BlockingChecks(verification.value.checks);
    }
  }

  lemma PolicyBlocks(policy: Option<PolicyReport>)
    ensures AnyBlocks(PolicySignals(policy)) <==> CriticalPolicy(policy)
  {
    if policy.Some? && policy.value.status == Failed {
      assert PolicySignals(policy)[0] in PolicySignals(policy);
    }
  }

  lemma RollbackBlocks(rollback: Option<RollbackReport>)
    ensures AnyBlocks(RollbackSignals(rollback)) <==> RollbackIncomplete(rollback)
  {
    if RollbackIncomplete(rollback) {
      assert RollbackSignals(rollback)[0] in RollbackSignals(rollback);
    }
  }

  // ---------------------------------------------------------------------
  // Strategy and decision
  // ---------------------------------------------------------------------

  datatype StrategyName =
    | FocusedTestFix | TaskConstraintRepair | PatchScopeReduction | SandboxAdjustment | ToolInputCorrection
    | ChangeApproach | FinalResponseRecovery | VerificationReproduction | CollectMoreContext
    | StopForIntervention | GenericRetry

  datatype StrategyPlan = StrategyPlan(
    strategy: StrategyName, shouldRetry: bool, actions: seq<string>, categories: seq<Category>)

  function Categories(signals: seq<Signal>): seq<Category>
  {
    seq(|signals|, i requires 0 <= i < |signals| => signals[i].category)
  }

  function StrategyFor(categories: seq<Category>): (StrategyName, seq<string>)
  {
    if TaskConstraintViolation in categories then
      (TaskConstraintRepair, ["inspect_task_constraints", "satisfy_required_constraints", "avoid_forbidden_changes"])
    else if PatchPolicyViolation in categories then
      (PatchScopeReduction, ["inspect_patch_policy", "reduce_patch_scope"])
    else if TestFailure in categories then
      (FocusedTestFix, ["inspect_failing_tests", "rerun_focused_tests", "apply_minimal_fix"])
    else if SandboxTimeoutCategory in categories || SandboxErrorCategory in categories then
      (SandboxAdjustment, ["inspect_sandbox_metadata", "narrow_verification_command"])
    else if ToolErrors in categories then
      (ToolInputCorrection, ["inspect_tool_errors", "correct_tool_inputs"])
    else if VerificationFailed in categories then
      (VerificationReproduction, ["inspect_verification_output", "rerun_verification", "apply_minimal_fix"])
    else if NoProgress in categories then
      (ChangeApproach, ["change_approach", "avoid_repeated_actions"])
    else if NoFinalResponse in categories then
      (FinalResponseRecovery, ["verify_current_state", "produce_final_response"])
    else
      (CollectMoreContext, ["collect_more_context", "rerun_explicit_verification"])
  }

  function Strategy(report: ReflectionReport, ranked: bool): StrategyPlan
  {
    var categories := Unique(Categories(report.signals));
    var opening := if ranked then ["inspect_ranked_context"] else ["collect_targeted_context"];
    if !report.retryable || RollbackFailed in categories || SandboxViolationCategory in categories then
      StrategyPlan(StopForIntervention, false, Unique(opening + ["request_intervention"]), categories)
    else
      var (name, actions) := StrategyFor(categories);
      StrategyPlan(name, true, Unique(opening + actions), categories)
  }

  datatype DecisionStatus = Retry | Disabled | Exhausted | NonRetryable | NoReflection

  datatype Decision = Decision(
    status: DecisionStatus, retryIndex: nat, strategy: Option<StrategyPlan>, categories: seq<Category>)

  function Decide(report: Option<ReflectionReport>, attempted: nat, maxRetries: int,
                  ranked: bool, matrix: bool): Decision
  {
    if maxRetries <= 0 then Decision(Disabled, attempted, None, [])
    else if report.None? then Decision(NoReflection, attempted, None, [])
    else
      var categories := Categories(report.value.signals);
      var plan := if matrix then Some(Strategy(report.value, ranked)) else None;
      if !report.value.retryable then Decision(NonRetryable, attempted, plan, categories)
      else if plan.Some? && !plan.value.shouldRetry then Decision(NonRetryable, attempted, plan, categories)
      else if attempted >= maxRetries then Decision(Exhausted, attempted, plan, categories)
      else Decision(Retry, attempted + 1, plan, categories)
  }

  /** The strategy matrix never stops a report the reflector calls retryable. */
  lemma StrategyNeverStops(verification: Option<VerificationReport>, policy: Option<PolicyReport>,
                           trajectory: seq<Step>, rollback: Option<RollbackReport>, ranked: bool)
    ensures var report := Reflected(verification, policy, trajectory, rollback);
      Strategy(report, ranked).shouldRetry <==> report.retryable
  {
    var report := Reflected(verification, policy, trajectory, rollback);
    var categories := Categories(report.signals);
    if report.retryable && (RollbackFailed in categories || SandboxViolationCategory in categories) {
      var i :| 0 <= i < |categories| && (categories[i].RollbackFailed? || categories[i].SandboxViolationCategory?);
      assert report.signals[i] in report.signals && Blocks(report.signals[i]);
      assert false;
    }
  }

  /**
   * For every report the reflector can produce, with retry budget left and the
   * matrix on or off, the decision is to retry exactly if the report is retryable.
   */
  lemma RetryExactly(verification: Option<VerificationReport>, policy: Option<PolicyReport>,
                     trajectory: seq<Step>, rollback: Option<RollbackReport>,
                     attempted: nat, maxRetries: int, ranked: bool, matrix: bool)
    requires attempted < maxRetries
    ensures var report := Reflected(verification, policy, trajectory, rollback);
      Decide(Some(report), attempted, maxRetries, ranked, matrix).status == Retry <==> report.retryable
  {
    StrategyNeverStops(verification, policy, trajectory, rollback, ranked);
  }

  /** A critical policy violation or a failed rollback is never retried, whatever the budget. */
  lemma InterventionIsNeverRetried(verification: Option<VerificationReport>, policy: Option<PolicyReport>,
                                   trajectory: seq<Step>, rollback: Option<RollbackReport>,
                                   attempted: nat, maxRetries: int, ranked: bool, matrix: bool)
    requires CriticalPolicy(policy) || RollbackIncomplete(rollback)
    ensures Decide(Some(Reflected(verification, policy, trajectory, rollback)),
                   attempted, maxRetries, ranked, matrix).status != Retry
  {
    RetryableExactly(verification, policy, trajectory, rollback);
  }

  /** Reports from elsewhere can reach the strategy stop: the reflector's own discipline matters. */
  lemma ForeignReportReachesStop()
    ensures var report := ReflectionReport(true, [Signal(RollbackFailed, false)]);
      Decide(Some(report), 0, 1, false, true).status == NonRetryable
      && Decide(Some(report), 0, 1, false, false).status == Retry
  {
    var report := ReflectionReport(true, [Signal(RollbackFailed, false)]);
    assert Categories(report.signals)[0] == RollbackFailed;
  }
}
