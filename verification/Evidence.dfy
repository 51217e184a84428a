// From the evidence of a failed attempt to what a retry does about it: which categories
// the reflector finds, which strategy it chooses, and which plan step a repair reopens.
module Evidence {
  import opened Text
  import opened Patching
  import opened PatchPolicy
  import opened RunTypes
  import opened Reflection
  import opened Planning

  /** All that a reflection reads. */
  datatype Findings = Findings(
    verification: Option<VerificationReport>, policy: Option<PolicyReport>,
    trajectory: seq<Step>, rollback: Option<RollbackReport>)
  {
    function Checks(): seq<Check>
    {
      if verification.Some? then verification.value.checks else []
    }

    ghost predicate ConstraintFailed()
    {
      exists c | c in Checks() :: c.TaskConstraints? && c.status.CheckFailed?
    }

    ghost predicate NoAnswer()
    {
      exists c | c in Checks() :: c.FinalResponse? && c.status.CheckFailed?
    }

    ghost predicate TestsFailed()
    {
      exists c | c in Checks() :: c.VerificationCommand? && c.tests.recognized
        && (c.tests.failed > 0 || c.tests.errors > 0 || c.tests.reportedFailed)
    }

    ghost predicate SandboxTrouble()
    {
      exists c | c in Checks() :: c.VerificationCommand? && (c.sandbox.SandboxTimedOut? || c.timedOut || c.sandbox.SandboxError?)
    }

    /** A command failed, or the report failed and none of its checks says why. */
    ghost predicate CommandFailed()
    {
      || (exists c | c in Checks() :: c.VerificationCommand? && c.status.CheckFailed?)
      || (verification.Some? && verification.value.status.CheckFailed? && forall c | c in Checks() :: Silent(c))
    }

    predicate BreachedPolicy()
    {
      policy.Some? && policy.value.status == Failed
    }

    predicate ToolFailed()
    {
      exists s | s in trajectory :: s.isError
    }

    /** Nothing was done, or the last three steps were one failing call. */
    predicate Stuck()
    {
      var n := |trajectory|;
      n == 0 || (n >= 3 && trajectory[n - 1].isError && trajectory[n - 2].isError && trajectory[n - 3].isError
        && trajectory[n - 1].tool == trajectory[n - 2].tool == trajectory[n - 3].tool
        && trajectory[n - 1].input == trajectory[n - 2].input == trajectory[n - 3].input)
    }

    function Report(): ReflectionReport
    {
      Reflected(verification, policy, trajectory, rollback)
    }
  }

  /** A check that gives the reflector nothing. */
  predicate Silent(c: Check)
  {
    match c
    case FinalResponse(status) => !status.CheckFailed?
    case TaskConstraints(status) => !status.CheckFailed?
    case VerificationCommand(status, sandbox, timedOut, tests) =>
      && !status.CheckFailed? && sandbox.SandboxOk? && !timedOut
      && !(tests.recognized && (tests.failed > 0 || tests.errors > 0 || tests.reportedFailed))
    case OtherCheck(_) => true
  }

  // ---------------------------------------------------------------------
  // Categories
  // ---------------------------------------------------------------------

  ghost predicate Found(signals: seq<Signal>, c: Category)
  {
    exists s | s in signals :: s.category == c
  }

  lemma FoundConcat(a: seq<Signal>, b: seq<Signal>, c: Category)
    ensures Found(a + b, c) <==> Found(a, c) || Found(b, c)
  {
    assert forall s | s in a || s in b :: s in a + b;
    assert forall s | s in a + b :: s in a || s in b;
  }

  lemma FoundInCategories(signals: seq<Signal>, c: Category)
    ensures c in Unique(Categories(signals)) <==> Found(signals, c)
  {
    if Found(signals, c) {
      var s :| s in signals && s.category == c;
      var i :| 0 <= i < |signals| && signals[i] == s;
      assert Categories(signals)[i] == c;
    }
    if c in Categories(signals) {
      var i :| 0 <= i < |signals| && Categories(signals)[i] == c;
      assert signals[i] in signals;
    }
  }

  /** What one check gives. */
  ghost predicate Gives(check: Check, c: Category)
  {
    match c
    case NoFinalResponse => check.FinalResponse? && check.status.CheckFailed?
    case TaskConstraintViolation => check.TaskConstraints? && check.status.CheckFailed?
    case SandboxTimeoutCategory => check.VerificationCommand? && (check.sandbox.SandboxTimedOut? || check.timedOut)
    case SandboxViolationCategory => check.VerificationCommand? && check.sandbox.SandboxViolation? && !check.timedOut
    case SandboxErrorCategory => check.VerificationCommand? && check.sandbox.SandboxError? && !check.timedOut
    case TestFailure => check.VerificationCommand? && check.tests.recognized
      && (check.tests.failed > 0 || check.tests.errors > 0 || check.tests.reportedFailed)
    case VerificationFailed => check.VerificationCommand? && check.status.CheckFailed?
    case _ => false
  }

  lemma FoundOne(s: Signal, c: Category)
    ensures Found([s], c) <==> s.category == c
    ensures !Found([], c)
  {
    assert s in [s];
  }

  lemma CheckGives(check: Check, c: Category)
    ensures Found(CheckSignals(check), c) <==> Gives(check, c)
  {
    FoundOne(Signal(NoFinalResponse, false), c);
    FoundOne(Signal(TaskConstraintViolation, false), c);
    if check.VerificationCommand? {
      CommandGives(check, c);
    }
  }

  lemma CommandGives(check: Check, c: Category)
    requires check.VerificationCommand?
    ensures Found(CheckSignals(check), c) <==> Gives(check, c)
  {
    var sandbox :=
      if check.sandbox.SandboxTimedOut? || check.timedOut then [Signal(SandboxTimeoutCategory, false)]
      else if check.sandbox.SandboxViolation? then [Signal(SandboxViolationCategory, false)]
      else if check.sandbox.SandboxError? then [Signal(SandboxErrorCategory, false)]
      else [];
    var tests := if HasTestFailures(check.tests) then [Signal(TestFailure, false)] else [];
    var command := if check.status.CheckFailed? then [Signal(VerificationFailed, false)] else [];
    assert CheckSignals(check) == sandbox + tests + command;
    FoundConcat(sandbox, tests, c);
    FoundConcat(sandbox + tests, command, c);
    FoundOne(Signal(SandboxTimeoutCategory, false), c);
    FoundOne(Signal(SandboxViolationCategory, false), c);
    FoundOne(Signal(SandboxErrorCategory, false), c);
    FoundOne(Signal(TestFailure, false), c);
    FoundOne(Signal(VerificationFailed, false), c);
  }

  lemma {:induction false} ChecksGive(checks: seq<Check>, c: Category)
    ensures Found(AllCheckSignals(checks), c) <==> exists k | k in checks :: Gives(k, c)
  {
    if checks != [] {
      var head, last := checks[..|checks| - 1], checks[|checks| - 1];
      ChecksGive(head, c);
      CheckGives(last, c);
      FoundConcat(AllCheckSignals(head), CheckSignals(last), c);
      assert checks == head + [last];
    }
  }

  lemma SilentGivesNothing(check: Check)
    ensures CheckSignals(check) == [] <==> Silent(check)
  {
  }

  lemma {:induction false} SilentChecks(checks: seq<Check>)
    ensures AllCheckSignals(checks) == [] <==> forall c | c in checks :: Silent(c)
  {
    if checks != [] {
      var head, last := checks[..|checks| - 1], checks[|checks| - 1];
      SilentChecks(head);
      SilentGivesNothing(last);
      assert checks == head + [last];
    }
  }

  /** What the evidence as a whole gives. */
  ghost predicate Shows(f: Findings, c: Category)
  {
    match c
    case TaskConstraintViolation => f.ConstraintFailed()
    case NoFinalResponse => f.NoAnswer()
    case TestFailure => f.TestsFailed()
    case PatchPolicyViolation => f.BreachedPolicy()
    case ToolErrors => f.ToolFailed()
    case NoProgress => f.Stuck()
    case RollbackFailed => RollbackIncomplete(f.rollback)
    case VerificationFailed => f.CommandFailed()
    case UnknownCause => false
    case _ => exists k | k in f.Checks() :: Gives(k, c)
  }

  lemma VerificationShows(f: Findings, c: Category)
    ensures var signals := if f.verification.Some? then VerificationSignals(f.verification.value) else [];
      Found(signals, c) <==>
        if c.VerificationFailed? then f.CommandFailed() else exists k | k in f.Checks() :: Gives(k, c)
  {
    if f.verification.Some? {
      ChecksGive(f.Checks(), c);
      SilentChecks(f.Checks());
      FoundOne(Signal(VerificationFailed, false), c);
      if forall k | k in f.Checks() :: Silent(k) {
        SilentGiveNothing(f.Checks(), c);
      }
    }
  }

  lemma SilentGiveNothing(checks: seq<Check>, c: Category)
    requires forall k | k in checks :: Silent(k)
    ensures !exists k | k in checks :: Gives(k, c)
  {
  }

  lemma PartsShow(f: Findings, c: Category)
    ensures Found(PolicySignals(f.policy), c) <==> c.PatchPolicyViolation? && f.BreachedPolicy()
    ensures Found(ToolErrorSignals(f.trajectory), c) <==> c.ToolErrors? && f.ToolFailed()
    ensures Found(NoProgressSignals(f.trajectory), c) <==> c.NoProgress? && f.Stuck()
    ensures Found(RollbackSignals(f.rollback), c) <==> c.RollbackFailed? && RollbackIncomplete(f.rollback)
  {
    FoundOne(Signal(PatchPolicyViolation, true), c);
    FoundOne(Signal(PatchPolicyViolation, false), c);
    FoundOne(Signal(ToolErrors, false), c);
    FoundOne(Signal(NoProgress, false), c);
    FoundOne(Signal(RollbackFailed, false), c);
  }

  lemma FoundInFive(a: seq<Signal>, b: seq<Signal>, d: seq<Signal>, e: seq<Signal>, g: seq<Signal>, c: Category)
    ensures Found(a + b + d + e + g, c) <==> Found(a, c) || Found(b, c) || Found(d, c) || Found(e, c) || Found(g, c)
  {
    FoundConcat(a, b, c);
    FoundConcat(a + b, d, c);
    FoundConcat(a + b + d, e, c);
    FoundConcat(a + b + d + e, g, c);
  }

  lemma SignalsShow(f: Findings, c: Category)
    requires !c.UnknownCause?
    ensures Found(f.Report().signals, c) <==> Shows(f, c)
  {
    var checks := if f.verification.Some? then VerificationSignals(f.verification.value) else [];
    var policy, tools := PolicySignals(f.policy), ToolErrorSignals(f.trajectory);
    var progress, rollback := NoProgressSignals(f.trajectory), RollbackSignals(f.rollback);
    PartsTogether(f, c, checks);
    FoundInFive(checks, policy, tools, progress, rollback, c);
    FoundOne(Signal(UnknownCause, false), c);
    assert f.Report().signals == var found := checks + policy + tools + progress + rollback;
      if found == [] then [Signal(UnknownCause, false)] else found;
  }

  lemma PartsTogether(f: Findings, c: Category, checks: seq<Signal>)
    requires !c.UnknownCause?
    requires checks == if f.verification.Some? then VerificationSignals(f.verification.value) else []
    ensures Shows(f, c) <==>
      || Found(checks, c) || Found(PolicySignals(f.policy), c) || Found(ToolErrorSignals(f.trajectory), c)
      || Found(NoProgressSignals(f.trajectory), c) || Found(RollbackSignals(f.rollback), c)
  {
    VerificationShows(f, c);
    PartsShow(f, c);
  }

  /** The reflector finds a category exactly if the evidence shows it. */
  lemma CategoryExactly(f: Findings, c: Category)
    requires !c.UnknownCause?
    ensures c in Unique(Categories(f.Report().signals)) <==> Shows(f, c)
  {
    SignalsShow(f, c);
    FoundInCategories(f.Report().signals, c);
  }

  // ---------------------------------------------------------------------
  // Strategies and repairs
  // ---------------------------------------------------------------------

  /** The first of the findings decides. */
  function First<T>(
      constraint: (bool, T), policy: (bool, T), tests: (bool, T), sandbox: (bool, T), tool: (bool, T),
      command: (bool, T), stuck: (bool, T), answer: (bool, T), otherwise: T): T
  {
    if constraint.0 then constraint.1 else if policy.0 then policy.1 else if tests.0 then tests.1
    else if sandbox.0 then sandbox.1 else if tool.0 then tool.1 else if command.0 then command.1
    else if stuck.0 then stuck.1 else if answer.0 then answer.1 else otherwise
  }

  /** The strategy for the findings. */
  ghost function Answer(f: Findings): StrategyName
  {
    First((f.ConstraintFailed(), TaskConstraintRepair), (f.BreachedPolicy(), PatchScopeReduction),
          (f.TestsFailed(), FocusedTestFix), (f.SandboxTrouble(), SandboxAdjustment),
          (f.ToolFailed(), ToolInputCorrection), (f.CommandFailed(), VerificationReproduction),
          (f.Stuck(), ChangeApproach), (f.NoAnswer(), FinalResponseRecovery), CollectMoreContext)
  }

  /** What a strategy has the model do. */
  function ActionsOf(name: StrategyName): seq<string>
  {
    match name
    case TaskConstraintRepair =>
      ["inspect_task_constraints", "satisfy_required_constraints", "avoid_forbidden_changes"]
    case PatchScopeReduction => ["inspect_patch_policy", "reduce_patch_scope"]
    case FocusedTestFix => ["inspect_failing_tests", "rerun_focused_tests", "apply_minimal_fix"]
    case SandboxAdjustment => ["inspect_sandbox_metadata", "narrow_verification_command"]
    case ToolInputCorrection => ["inspect_tool_errors", "correct_tool_inputs"]
    case VerificationReproduction => ["inspect_verification_output", "rerun_verification", "apply_minimal_fix"]
    case ChangeApproach => ["change_approach", "avoid_repeated_actions"]
    case FinalResponseRecovery => ["verify_current_state", "produce_final_response"]
    case CollectMoreContext => ["collect_more_context", "rerun_explicit_verification"]
    case StopForIntervention => ["request_intervention"]
    case GenericRetry => []
  }

  lemma ActionsFollow(categories: seq<Category>)
    ensures StrategyFor(categories).1 == ActionsOf(StrategyFor(categories).0)
  {
  }

  /** A retryable report is answered by the strategy its evidence calls for, looking at the context first. */
  lemma StrategyAnswers(f: Findings, ranked: bool)
    requires f.Report().retryable
    ensures var plan := Strategy(f.Report(), ranked);
      && plan.strategy == Answer(f) && plan.shouldRetry
      && plan.actions == Unique([if ranked then "inspect_ranked_context" else "collect_targeted_context"]
                                + ActionsOf(Answer(f)))
      && plan.actions != [] && Distinct(plan.actions)
      && plan.actions[0] == if ranked then "inspect_ranked_context" else "collect_targeted_context"
  {
    StrategyNeverStops(f.verification, f.policy, f.trajectory, f.rollback, ranked);
    FindingsDecide(f);
    var opening := if ranked then ["inspect_ranked_context"] else ["collect_targeted_context"];
    ActionsFollow(Unique(Categories(f.Report().signals)));
    FirstStaysFirst(opening, StrategyFor(Unique(Categories(f.Report().signals))).1);
  }

  lemma CategoriesDecide(categories: seq<Category>)
    ensures StrategyFor(categories).0 ==
      First((TaskConstraintViolation in categories, TaskConstraintRepair),
            (PatchPolicyViolation in categories, PatchScopeReduction),
            (TestFailure in categories, FocusedTestFix),
            (SandboxTimeoutCategory in categories || SandboxErrorCategory in categories, SandboxAdjustment),
            (ToolErrors in categories, ToolInputCorrection),
            (VerificationFailed in categories, VerificationReproduction),
            (NoProgress in categories, ChangeApproach),
            (NoFinalResponse in categories, FinalResponseRecovery), CollectMoreContext)
  {
  }

  lemma SandboxShows(f: Findings)
    ensures Shows(f, SandboxTimeoutCategory) || Shows(f, SandboxErrorCategory) <==> f.SandboxTrouble()
  {
    if f.SandboxTrouble() {
      var c :| c in f.Checks() && c.VerificationCommand? && (c.sandbox.SandboxTimedOut? || c.timedOut || c.sandbox.SandboxError?);
      assert Gives(c, SandboxTimeoutCategory) || Gives(c, SandboxErrorCategory);
    }
  }

  /** The categories that come first are there exactly on these findings. */
  ghost predicate SeesFirst(f: Findings, categories: seq<Category>)
  {
    && (TaskConstraintViolation in categories <==> f.ConstraintFailed())
    && (PatchPolicyViolation in categories <==> f.BreachedPolicy())
    && (TestFailure in categories <==> f.TestsFailed())
    && (SandboxTimeoutCategory in categories || SandboxErrorCategory in categories <==> f.SandboxTrouble())
  }

  ghost predicate SeesRest(f: Findings, categories: seq<Category>)
  {
    && (ToolErrors in categories <==> f.ToolFailed())
    && (VerificationFailed in categories <==> f.CommandFailed())
    && (NoProgress in categories <==> f.Stuck())
    && (NoFinalResponse in categories <==> f.NoAnswer())
  }

  lemma FindingsAreSeen(f: Findings)
    ensures SeesFirst(f, Unique(Categories(f.Report().signals))) && SeesRest(f, Unique(Categories(f.Report().signals)))
  {
    var categories := Unique(Categories(f.Report().signals));
    forall c: Category | !c.UnknownCause? ensures c in categories <==> Shows(f, c) {
      CategoryExactly(f, c);
    }
    ShownFirst(f, categories);
    ShownRest(f, categories);
  }

  lemma ShownFirst(f: Findings, categories: seq<Category>)
    requires forall c: Category | !c.UnknownCause? :: c in categories <==> Shows(f, c)
    ensures SeesFirst(f, categories)
  {
    SandboxShows(f);
  }

  lemma ShownRest(f: Findings, categories: seq<Category>)
    requires forall c: Category | !c.UnknownCause? :: c in categories <==> Shows(f, c)
    ensures SeesRest(f, categories)
  {
  }

  lemma SeenDecide(f: Findings, categories: seq<Category>)
    requires SeesFirst(f, categories) && SeesRest(f, categories)
    ensures StrategyFor(categories).0 == Answer(f)
  {
    CategoriesDecide(categories);
  }

  lemma FindingsDecide(f: Findings)
    ensures StrategyFor(Unique(Categories(f.Report().signals))).0 == Answer(f)
  {
    FindingsAreSeen(f);
    SeenDecide(f, Unique(Categories(f.Report().signals)));
  }

  lemma {:induction false} FirstStaysFirst<T(!new)>(head: seq<T>, tail: seq<T>)
    requires |head| == 1
    ensures Unique(head + tail) != [] && Unique(head + tail)[0] == head[0]
  {
    if tail == [] {
      assert head + tail == head;
      assert head[..0] == [];
    } else {
      FirstStaysFirst(head, tail[..|tail| - 1]);
      assert (head + tail)[..|head + tail| - 1] == head + tail[..|tail| - 1];
    }
  }

  /** The plan step a retry reopens: with the strategy matrix by its strategy, without it by the constraint alone. */
  ghost function Reopened(f: Findings, matrix: bool): string
  {
    if !matrix then if f.ConstraintFailed() then SATISFY_CONSTRAINTS else RECOVER_FAILURE
    else
      First((f.ConstraintFailed(), SATISFY_CONSTRAINTS), (f.BreachedPolicy(), MODIFY_WORKSPACE),
            (f.TestsFailed(), VERIFY_OUTCOME), (f.SandboxTrouble(), VERIFY_OUTCOME),
            (f.ToolFailed(), MODIFY_WORKSPACE), (f.CommandFailed(), VERIFY_OUTCOME),
            (f.Stuck(), INSPECT_CONTEXT), (f.NoAnswer(), FINAL_RESPONSE), INSPECT_CONTEXT)
  }

  lemma TargetOf(plan: StrategyPlan, f: Findings)
    requires plan.strategy == Answer(f) && (TaskConstraintViolation in plan.categories <==> f.ConstraintFailed())
    ensures RepairTarget(Some(plan.strategy), plan.categories) == Reopened(f, true)
  {
  }

  lemma PlainTarget(f: Findings)
    ensures RepairTarget(None, Categories(f.Report().signals)) == Reopened(f, false)
  {
    CategoryExactly(f, TaskConstraintViolation);
  }

  lemma TargetWithMatrix(f: Findings, d: Decision, ranked: bool)
    requires f.Report().retryable && d.strategy == Some(Strategy(f.Report(), ranked))
    ensures RepairOf(d).target == Reopened(f, true)
  {
    StrategyAnswers(f, ranked);
    CategoryExactly(f, TaskConstraintViolation);
    TargetOf(d.strategy.value, f);
    RepairTargetOf(d);
  }

  lemma TargetWithout(f: Findings, d: Decision)
    requires d.strategy.None? && d.categories == Categories(f.Report().signals)
    ensures RepairOf(d).target == Reopened(f, false)
  {
    PlainTarget(f);
    RepairTargetOf(d);
  }

  lemma RepairTargetOf(d: Decision)
    ensures RepairOf(d).target ==
      if d.strategy.Some? then RepairTarget(Some(d.strategy.value.strategy), d.strategy.value.categories)
      else RepairTarget(None, d.categories)
  {
  }

  /** A retry reopens the step its evidence points to. */
  lemma RepairAnswers(f: Findings, attempted: nat, maxRetries: int, ranked: bool, matrix: bool)
    requires Decide(Some(f.Report()), attempted, maxRetries, ranked, matrix).status == Retry
    ensures RepairOf(Decide(Some(f.Report()), attempted, maxRetries, ranked, matrix)).target == Reopened(f, matrix)
  {
    var d := Decide(Some(f.Report()), attempted, maxRetries, ranked, matrix);
    Decided(f.Report(), attempted, maxRetries, ranked, matrix);
    if matrix {
      TargetWithMatrix(f, d, ranked);
    } else {
      TargetWithout(f, d);
    }
  }

  /** The actions of a repair: with the matrix the strategy's, without it by the tests alone. */
  ghost function Repairing(f: Findings, ranked: bool, matrix: bool): seq<string>
  {
    if matrix then
      Unique([if ranked then "inspect_ranked_context" else "collect_targeted_context"] + ActionsOf(Answer(f)))
    else PlainActions(f.TestsFailed())
  }

  lemma {:induction false} UniqueOfDistinct<T(!new)>(s: seq<T>)
    requires Distinct(s)
    ensures Unique(s) == s
  {
    if s != [] {
      UniqueOfDistinct(s[..|s| - 1]);
      assert s == s[..|s| - 1] + [s[|s| - 1]];
    }
  }

  lemma RepairByPlan(d: Decision)
    requires d.strategy.Some? && d.strategy.value.actions != [] && Distinct(d.strategy.value.actions)
    ensures RepairOf(d).kinds == RepairKinds(d.retryIndex, d.strategy.value.actions)
  {
    UniqueOfDistinct(d.strategy.value.actions);
  }

  function PlainActions(testsFailed: bool): (actions: seq<string>)
    ensures Distinct(actions)
  {
    if testsFailed then ["inspect_failing_tests", "rerun_focused_tests", "apply_minimal_fix"]
    else ["collect_targeted_context", "retry_with_evidence"]
  }

  lemma RepairWithoutPlan(d: Decision)
    requires d.strategy.None?
    ensures RepairOf(d).kinds == RepairKinds(d.retryIndex, PlainActions(TestFailure in d.categories))
  {
    UniqueOfDistinct(PlainActions(TestFailure in d.categories));
  }

  lemma Decided(report: ReflectionReport, attempted: nat, maxRetries: int, ranked: bool, matrix: bool)
    requires Decide(Some(report), attempted, maxRetries, ranked, matrix).status == Retry
    ensures var d := Decide(Some(report), attempted, maxRetries, ranked, matrix);
      && report.retryable && d.retryIndex == attempted + 1 && d.categories == Categories(report.signals)
      && d.strategy == if matrix then Some(Strategy(report, ranked)) else None
  {
  }

  lemma TestsInCategories(f: Findings)
    ensures TestFailure in Categories(f.Report().signals) <==> f.TestsFailed()
  {
    CategoryExactly(f, TestFailure);
  }

  lemma StepsWithMatrix(f: Findings, d: Decision, ranked: bool)
    requires f.Report().retryable && d.strategy == Some(Strategy(f.Report(), ranked))
    ensures RepairOf(d).kinds == RepairKinds(d.retryIndex, Repairing(f, ranked, true))
  {
    StrategyAnswers(f, ranked);
    RepairByPlan(d);
  }

  lemma StepsWithout(f: Findings, d: Decision, ranked: bool)
    requires d.strategy.None? && d.categories == Categories(f.Report().signals)
    ensures RepairOf(d).kinds == RepairKinds(d.retryIndex, Repairing(f, ranked, false))
  {
    TestsInCategories(f);
    RepairWithoutPlan(d);
  }

  /** The steps a retry adds are its repair actions, under kinds of that retry. */
  lemma RepairSteps(f: Findings, attempted: nat, maxRetries: int, ranked: bool, matrix: bool)
    requires Decide(Some(f.Report()), attempted, maxRetries, ranked, matrix).status == Retry
    ensures RepairOf(Decide(Some(f.Report()), attempted, maxRetries, ranked, matrix)).kinds
      == RepairKinds(attempted + 1, Repairing(f, ranked, matrix))
  {
    var d := Decide(Some(f.Report()), attempted, maxRetries, ranked, matrix);
    Decided(f.Report(), attempted, maxRetries, ranked, matrix);
    if matrix {
      StepsWithMatrix(f, d, ranked);
    } else {
      StepsWithout(f, d, ranked);
    }
  }

  /** A repair reopens the step and adds the steps that the findings call for. */
  ghost predicate Fits(op: PlanOp, f: Findings, attempted: nat, ranked: bool, matrix: bool)
  {
    op.Repair? && op.target == Reopened(f, matrix)
    && op.kinds == RepairKinds(attempted + 1, Repairing(f, ranked, matrix))
  }

  lemma RepairFits(f: Findings, attempted: nat, maxRetries: int, ranked: bool, matrix: bool)
    requires Decide(Some(f.Report()), attempted, maxRetries, ranked, matrix).status == Retry
    ensures Fits(RepairOf(Decide(Some(f.Report()), attempted, maxRetries, ranked, matrix)), f, attempted, ranked, matrix)
  {
    RepairAnswers(f, attempted, maxRetries, ranked, matrix);
    RepairSteps(f, attempted, maxRetries, ranked, matrix);
  }
}
