// The runtime plan: its steps, the guarded status updates, and plan repairs.
module Planning {
  import opened Text
  import opened RunTypes
  import opened Reflection

  const UNDERSTAND_TASK := "understand_task"
  const INSPECT_CONTEXT := "inspect_context"
  const MODIFY_WORKSPACE := "modify_workspace"
  const SATISFY_CONSTRAINTS := "satisfy_constraints"
  const VERIFY_OUTCOME := "verify_outcome"
  const RECOVER_FAILURE := "recover_failure"
  const FINAL_RESPONSE := "final_response"

  datatype StepStatus = StepPending | InProgress | Done | Blocked

  /** A plan step as to_dict shows it; descriptions are prompt text and left out. */
  datatype StepView = StepView(index: nat, kind: string, status: StepStatus, evidence: string)

  type PlanView = seq<StepView>

  function StepIndex(p: PlanView, kind: string): (i: nat)
    ensures i <= |p|
    ensures i < |p| ==> p[i].kind == kind
    ensures forall j | 0 <= j < i :: p[j].kind != kind
  {
    if p == [] then 0
    else if p[0].kind == kind then 0
    else 1 + StepIndex(p[1..], kind)
  }

  // ---------------------------------------------------------------------
  // Operations on a plan
  // ---------------------------------------------------------------------

  datatype PlanOp =
    | Mark(kind: string, status: StepStatus, evidence: string)
    | CompleteAll(evidence: string)
    | Repair(target: string, kinds: seq<string>, evidence: string)

  /** set_plan_step: DONE is left only for BLOCKED. */
  function SetStep(p: PlanView, kind: string, status: StepStatus, evidence: string): PlanView
  {
    var i := StepIndex(p, kind);
    if i == |p| || (p[i].status.Done? && !status.Blocked?) then p
    else p[i := p[i].(status := status, evidence := evidence)]
  }

  /** apply_plan_repair sets the target step directly. */
  function Reopen(p: PlanView, kind: string, evidence: string): PlanView
  {
    var i := StepIndex(p, kind);
    if i == |p| then p else p[i := p[i].(status := InProgress, evidence := evidence)]
  }

  function AddSteps(p: PlanView, kinds: seq<string>): PlanView
    decreases |kinds|
  {
    if kinds == [] then p
    else
      var q := AddSteps(p, kinds[..|kinds| - 1]);
      q + [StepView(|q| + 1, kinds[|kinds| - 1], StepPending, "")]
  }

  function Finish(s: StepView, evidence: string): StepView
  {
    if s.status.Done? then s else s.(status := Done, evidence := evidence)
  }

  function Finished(p: PlanView, evidence: string): PlanView
  {
    seq(|p|, i requires 0 <= i < |p| => Finish(p[i], evidence))
  }

  function PlanAfter(p: PlanView, op: PlanOp): PlanView
  {
    match op
    case Mark(kind, status, evidence) => SetStep(p, kind, status, evidence)
    case CompleteAll(evidence) => Finished(p, evidence)
    case Repair(target, kinds, evidence) => AddSteps(Reopen(p, target, evidence), kinds)
  }

  function Replay(p: PlanView, ops: seq<PlanOp>): PlanView
  {
    if ops == [] then p else PlanAfter(Replay(p, ops[..|ops| - 1]), ops[|ops| - 1])
  }

  // ---------------------------------------------------------------------
  // What a verification report marks
  // ---------------------------------------------------------------------

  /** The status of the first task constraint check. */
  function ConstraintStatus(checks: seq<Check>): Option<CheckStatus>
  {
    if checks == [] then None
    else if checks[0].TaskConstraints? then Some(checks[0].status)
    else ConstraintStatus(checks[1..])
  }

  function ConstraintMarks(r: VerificationReport): seq<PlanOp>
  {
    match ConstraintStatus(r.checks)
    case Some(CheckFailed) => [Mark(SATISFY_CONSTRAINTS, Blocked, "task constraint check failed")]
    case Some(_) => [Mark(SATISFY_CONSTRAINTS, Done, "task constraint check passed or skipped")]
    case None => []
  }

  function OutcomeMarks(r: VerificationReport): seq<PlanOp>
  {
    match r.status
    case CheckPassed => [Mark(VERIFY_OUTCOME, Done, if r.summary != "" then r.summary else "verification passed")]
    case CheckFailed => [Mark(VERIFY_OUTCOME, Blocked, if r.summary != "" then r.summary else "verification failed")]
    case CheckSkipped => []
  }

  /** PlanController.update_from_verification */
  function VerificationMarks(r: VerificationReport): seq<PlanOp>
  {
    ConstraintMarks(r) + OutcomeMarks(r)
  }

  /**
   * What a verdict makes of a step: blocked by a failure even if it was DONE, DONE
   * otherwise, with the evidence it had if it was DONE before, and untouched without a verdict.
   */
  predicate StepSettled(before: StepView, after: StepView, verdict: Option<CheckStatus>, evidence: string)
  {
    match verdict
    case None => after == before
    case Some(CheckFailed) => after == before.(status := Blocked, evidence := evidence)
    case Some(_) => after == if before.status.Done? then before else before.(status := Done, evidence := evidence)
  }

  function OutcomeEvidence(r: VerificationReport): string
  {
    if r.summary != "" then r.summary
    else if r.status.CheckFailed? then "verification failed" else "verification passed"
  }

  /** One verdict settled the step at k, and no other step changed. */
  ghost predicate OneSettled(p: PlanView, q: PlanView, k: nat, verdict: Option<CheckStatus>, evidence: string)
  {
    && |q| == |p|
    && (forall i | 0 <= i < |p| && i != k :: q[i] == p[i])
    && (k < |p| ==> StepSettled(p[k], q[k], verdict, evidence))
  }

  function ConstraintEvidence(r: VerificationReport): string
  {
    if ConstraintStatus(r.checks) == Some(CheckFailed) then "task constraint check failed"
    else "task constraint check passed or skipped"
  }

  function OutcomeVerdict(r: VerificationReport): Option<CheckStatus>
  {
    if r.status.CheckSkipped? then None else Some(r.status)
  }

  /** After a report its verdicts stand in the plan: on two steps at most, and nowhere else. */
  ghost predicate Reported(p: PlanView, q: PlanView, r: VerificationReport)
  {
    var constraints, outcome := StepIndex(p, SATISFY_CONSTRAINTS), StepIndex(p, VERIFY_OUTCOME);
    && |q| == |p|
    && (forall i | 0 <= i < |p| && i != constraints && i != outcome :: q[i] == p[i])
    && (constraints < |p| ==>
          StepSettled(p[constraints], q[constraints], ConstraintStatus(r.checks), ConstraintEvidence(r)))
    && (outcome < |p| ==> StepSettled(p[outcome], q[outcome], OutcomeVerdict(r), OutcomeEvidence(r)))
  }

  /** The marks of a report put exactly its verdicts into the plan. */
  lemma VerificationSettles(p: PlanView, r: VerificationReport)
    ensures Reported(p, Replay(p, VerificationMarks(r)), r)
  {
    var q := Replay(p, ConstraintMarks(r));
    ConstraintsSettle(p, r);
    OutcomeSettles(q, r);
    ReplayConcat(p, ConstraintMarks(r), OutcomeMarks(r));
    SameIndexes(p, q);
    TwoSettled(p, q, Replay(q, OutcomeMarks(r)), r);
  }

  lemma TwoSettled(p: PlanView, q: PlanView, s: PlanView, r: VerificationReport)
    requires OneSettled(
               p, q, StepIndex(p, SATISFY_CONSTRAINTS), ConstraintStatus(r.checks), ConstraintEvidence(r))
    requires OneSettled(q, s, StepIndex(p, VERIFY_OUTCOME), OutcomeVerdict(r), OutcomeEvidence(r))
    ensures Reported(p, s, r)
  {
    assert SATISFY_CONSTRAINTS[0] != VERIFY_OUTCOME[0];
  }

  lemma MarkSettles(p: PlanView, kind: string, status: CheckStatus, evidence: string)
    ensures OneSettled(
              p, SetStep(p, kind, if status.CheckFailed? then Blocked else Done, evidence),
              StepIndex(p, kind), Some(status), evidence)
  {
  }

  lemma ConstraintsSettle(p: PlanView, r: VerificationReport)
    ensures OneSettled(p, Replay(p, ConstraintMarks(r)),
                       StepIndex(p, SATISFY_CONSTRAINTS), ConstraintStatus(r.checks), ConstraintEvidence(r))
    ensures SameKinds(p, Replay(p, ConstraintMarks(r)))
  {
    ReplayAtMostOne(p, ConstraintMarks(r));
    var status := ConstraintStatus(r.checks);
    if status.Some? {
      MarkSettles(p, SATISFY_CONSTRAINTS, status.value, ConstraintEvidence(r));
    }
  }

  lemma OutcomeSettles(p: PlanView, r: VerificationReport)
    ensures OneSettled(p, Replay(p, OutcomeMarks(r)),
                       StepIndex(p, VERIFY_OUTCOME), OutcomeVerdict(r), OutcomeEvidence(r))
  {
    ReplayAtMostOne(p, OutcomeMarks(r));
    if !r.status.CheckSkipped? {
      MarkSettles(p, VERIFY_OUTCOME, r.status, OutcomeEvidence(r));
    }
  }

  lemma ReplayAtMostOne(p: PlanView, ops: seq<PlanOp>)
    requires |ops| <= 1
    ensures Replay(p, ops) == if ops == [] then p else PlanAfter(p, ops[0])
  {
  }

  lemma {:induction false} ReplayConcat(p: PlanView, a: seq<PlanOp>, b: seq<PlanOp>)
    ensures Replay(p, a + b) == Replay(Replay(p, a), b)
  {
    if b == [] {
      assert a + b == a;
    } else {
      assert (a + b)[..|a + b| - 1] == a + b[..|b| - 1];
      ReplayConcat(p, a, b[..|b| - 1]);
    }
  }

  predicate SameKinds(p: PlanView, q: PlanView)
  {
    |p| == |q| && forall i | 0 <= i < |p| :: p[i].kind == q[i].kind
  }

  lemma {:induction false} SameIndexes(p: PlanView, q: PlanView)
    requires SameKinds(p, q)
    ensures forall kind :: StepIndex(p, kind) == StepIndex(q, kind)
  {
    if p != [] {
      SameIndexes(p[1..], q[1..]);
    }
  }

  function FromKinds(kinds: seq<string>): PlanView
  {
    AddSteps([], kinds)
  }

  function RuntimePlanKinds(hasConstraints: bool, maxRetries: int): seq<string>
  {
    [UNDERSTAND_TASK, INSPECT_CONTEXT, MODIFY_WORKSPACE]
    + (if hasConstraints then [SATISFY_CONSTRAINTS] else [])
    + [VERIFY_OUTCOME]
    + (if maxRetries > 0 then [RECOVER_FAILURE] else [])
    + [FINAL_RESPONSE]
  }

  predicate IsComplete(p: PlanView)
  {
    p != [] && forall s | s in p :: s.status.Done?
  }

  // ---------------------------------------------------------------------
  // Plan repairs
  // ---------------------------------------------------------------------

  function RepairKind(n: nat, action: string): string
  {
    "repair_" + Decimal(n) + "_" + action
  }

  /** The first six actions; "recover" if there is none. */
  function RepairActions(actions: seq<string>): (kept: seq<string>)
    ensures Distinct(actions) ==> Distinct(kept)
  {
    if actions == [] then ["recover"] else if |actions| <= 6 then actions else actions[..6]
  }

  function RepairKinds(n: nat, actions: seq<string>): seq<string>
  {
    var kept := RepairActions(actions);
    seq(|kept|, i requires 0 <= i < |kept| => RepairKind(n, kept[i]))
  }

  method ToPlanItems(n: nat, actions: seq<string>) returns (kinds: seq<string>)
    ensures kinds == RepairKinds(n, actions)
  {
    var kept := if |actions| <= 6 then actions else actions[..6];
    kinds := [];
    for i := 0 to |kept|
      invariant kinds == seq(i, j requires 0 <= j < i => RepairKind(n, kept[j]))
    {
      kinds := kinds + [RepairKind(n, kept[i])];
    }
    if kinds == [] {
      kinds := [RepairKind(n, "recover")];
    }
  }

  /** The strategy a decision carries; None stands for "generic_retry". */
  function RepairTarget(strategy: Option<StrategyName>, categories: seq<Category>): string
  {
    if strategy == Some(TaskConstraintRepair) || TaskConstraintViolation in categories then SATISFY_CONSTRAINTS
    else
      match strategy
      case Some(FocusedTestFix) => VERIFY_OUTCOME
      case Some(VerificationReproduction) => VERIFY_OUTCOME
      case Some(SandboxAdjustment) => VERIFY_OUTCOME
      case Some(PatchScopeReduction) => MODIFY_WORKSPACE
      case Some(ToolInputCorrection) => MODIFY_WORKSPACE
      case Some(FinalResponseRecovery) => FINAL_RESPONSE
      case Some(CollectMoreContext) => INSPECT_CONTEXT
      case Some(ChangeApproach) => INSPECT_CONTEXT
      case _ => RECOVER_FAILURE
  }

  function DefaultActions(strategy: Option<StrategyName>, categories: seq<Category>): seq<string>
  {
    if strategy == Some(FocusedTestFix) || TestFailure in categories then
      ["inspect_failing_tests", "rerun_focused_tests", "apply_minimal_fix"]
    else if strategy == Some(TaskConstraintRepair) then
      ["inspect_task_constraints", "satisfy_required_constraints", "avoid_forbidden_changes"]
    else if strategy == Some(PatchScopeReduction) then ["inspect_patch_policy", "reduce_patch_scope"]
    else if strategy == Some(ToolInputCorrection) then ["inspect_tool_errors", "correct_tool_inputs"]
    else if strategy == Some(VerificationReproduction) then
      ["inspect_verification_output", "rerun_verification", "apply_minimal_fix"]
    else ["collect_targeted_context", "retry_with_evidence"]
  }

  /** build_plan_repair and to_plan_items for a decision to retry. */
  function RepairOf(d: Decision): (op: PlanOp)
    ensures op.Repair?
  {
    var strategy := if d.strategy.Some? then Some(d.strategy.value.strategy) else None;
    var categories := if d.strategy.Some? then d.strategy.value.categories else d.categories;
    var given := if d.strategy.Some? then d.strategy.value.actions else [];
    var actions := if given == [] then DefaultActions(strategy, categories) else given;
    Repair(RepairTarget(strategy, categories), RepairKinds(d.retryIndex, Unique(actions)),
           "plan repair strategy")
  }

  // ---------------------------------------------------------------------
  // Kinds never collide
  // ---------------------------------------------------------------------

  /** "repair_1_..." and "repair_11_..." cannot meet. */
  lemma RepairKindInjective(m: nat, a: string, n: nat, b: string)
    requires RepairKind(m, a) == RepairKind(n, b)
    ensures m == n && a == b
  {
    assert '_' !in Decimal(m) && '_' !in Decimal(n);
    var prefix := "repair_";
    var s, t := Decimal(m) + ['_'] + a, Decimal(n) + ['_'] + b;
    assert RepairKind(m, a) == prefix + s && RepairKind(n, b) == prefix + t;
    assert s == RepairKind(m, a)[|prefix|..] == RepairKind(n, b)[|prefix|..] == t;
    SplitUnique(Decimal(m), a, Decimal(n), b, '_');
    DecimalInjective(m, n);
  }

  predicate IsBase(kind: string)
  {
    kind in [UNDERSTAND_TASK, INSPECT_CONTEXT, MODIFY_WORKSPACE, SATISFY_CONSTRAINTS,
             VERIFY_OUTCOME, RECOVER_FAILURE, FINAL_RESPONSE]
  }

  lemma RepairKindIsNotBase(n: nat, action: string)
    ensures !IsBase(RepairKind(n, action))
  {
    assert RepairKind(n, action)[2] == 'p';
    assert UNDERSTAND_TASK[2] == 'd' && INSPECT_CONTEXT[2] == 's' && MODIFY_WORKSPACE[2] == 'd'
        && SATISFY_CONSTRAINTS[2] == 't' && VERIFY_OUTCOME[2] == 'r' && RECOVER_FAILURE[2] == 'c'
        && FINAL_RESPONSE[2] == 'n';
  }

  /** A base kind, or the kind of a repair made by one of the first `retries` retries. */
  ghost predicate KnownKind(kind: string, retries: nat)
  {
    IsBase(kind) || exists n: nat, a: string :: 1 <= n <= retries && kind == RepairKind(n, a)
  }

  /** What every plan of a run with that many retries behind it satisfies. */
  ghost predicate PlanOk(p: PlanView, retries: nat)
  {
    && (forall i | 0 <= i < |p| :: p[i].index == i + 1)
    && (forall i, j | 0 <= i < j < |p| :: p[i].kind != p[j].kind)
    && (forall i | 0 <= i < |p| :: KnownKind(p[i].kind, retries))
  }

  predicate HasKind(p: PlanView, kind: string)
  {
    exists i :: 0 <= i < |p| && p[i].kind == kind
  }

  /** The steps keep their place, index and kind; more may follow. */
  ghost predicate Extends(p: PlanView, q: PlanView)
  {
    |p| <= |q| && forall i | 0 <= i < |p| :: q[i].index == p[i].index && q[i].kind == p[i].kind
  }

  lemma {:induction false} AddStepsShape(p: PlanView, kinds: seq<string>)
    ensures var q := AddSteps(p, kinds);
      && |q| == |p| + |kinds| && q[..|p|] == p
      && forall i | 0 <= i < |kinds| :: q[|p| + i] == StepView(|p| + i + 1, kinds[i], StepPending, "")
    decreases |kinds|
  {
    if kinds != [] {
      AddStepsShape(p, kinds[..|kinds| - 1]);
    }
  }

  lemma KindsGrow(p: PlanView, retries: nat, more: nat)
    requires PlanOk(p, retries) && retries <= more
    ensures PlanOk(p, more)
  {
    forall i | 0 <= i < |p| ensures KnownKind(p[i].kind, more) {
      assert KnownKind(p[i].kind, retries);
    }
  }

  /** Appending steps of new, different kinds. */
  lemma AddNewKinds(p: PlanView, retries: nat, kinds: seq<string>)
    requires PlanOk(p, retries) && Distinct(kinds)
    requires forall i, j | 0 <= i < |p| && 0 <= j < |kinds| :: p[i].kind != kinds[j]
    requires AllKnown(kinds, retries)
    ensures PlanOk(AddSteps(p, kinds), retries)
  {
    AddedStep(p, kinds);
    DistinctKinds(p, kinds, AddSteps(p, kinds));
    KnownAppend(p, retries, kinds, AddSteps(p, kinds));
  }

  ghost predicate AllKnown(kinds: seq<string>, retries: nat)
  {
    forall j | 0 <= j < |kinds| :: KnownKind(kinds[j], retries)
  }

  lemma AddedStep(p: PlanView, kinds: seq<string>)
    ensures var q := AddSteps(p, kinds);
      && |q| == |p| + |kinds|
      && (forall i | 0 <= i < |p| :: q[i] == p[i])
      && (forall i | |p| <= i < |q| :: q[i] == StepView(i + 1, kinds[i - |p|], StepPending, ""))
  {
    AddStepsShape(p, kinds);
    var q := AddSteps(p, kinds);
    assert forall i | 0 <= i < |p| :: q[i] == q[..|p|][i];
    assert forall i | |p| <= i < |q| :: q[i] == q[|p| + (i - |p|)];
  }

  lemma KnownAppend(p: PlanView, retries: nat, kinds: seq<string>, q: PlanView)
    requires |q| == |p| + |kinds| && AllKnown(kinds, retries)
    requires forall i | 0 <= i < |q| :: q[i].kind == if i < |p| then p[i].kind else kinds[i - |p|]
    requires forall i | 0 <= i < |p| :: KnownKind(p[i].kind, retries)
    ensures forall i | 0 <= i < |q| :: KnownKind(q[i].kind, retries)
  {
    forall i | 0 <= i < |q| ensures KnownKind(q[i].kind, retries) {
      if i >= |p| {
        assert KnownKind(kinds[i - |p|], retries);
      }
    }
  }

  lemma DistinctKinds(p: PlanView, kinds: seq<string>, q: PlanView)
    requires |q| == |p| + |kinds| && Distinct(kinds)
    requires forall i | 0 <= i < |q| :: q[i].kind == if i < |p| then p[i].kind else kinds[i - |p|]
    requires forall i, j | 0 <= i < j < |p| :: p[i].kind != p[j].kind
    requires forall i, j | 0 <= i < |p| && 0 <= j < |kinds| :: p[i].kind != kinds[j]
    ensures forall i, j | 0 <= i < j < |q| :: q[i].kind != q[j].kind
  {
    forall i, j | 0 <= i < j < |q| ensures q[i].kind != q[j].kind {
      if |p| <= i {
        assert kinds[i - |p|] != kinds[j - |p|];
      } else if |p| <= j {
        assert p[i].kind != kinds[j - |p|];
      }
    }
  }

  /** A repair of the next retry adds steps whose kinds are new. */
  lemma RepairKeepsPlanOk(p: PlanView, retries: nat, target: string, actions: seq<string>, evidence: string)
    requires PlanOk(p, retries) && Distinct(actions)
    ensures PlanOk(PlanAfter(p, Repair(target, RepairKinds(retries + 1, actions), evidence)), retries + 1)
  {
    var n, kept := retries + 1, RepairActions(actions);
    var kinds := RepairKinds(n, actions);
    var r := Reopen(p, target, evidence);
    assert forall i | 0 <= i < |p| :: r[i].kind == p[i].kind && r[i].index == p[i].index;
    assert PlanOk(r, retries);
    KindsGrow(r, retries, n);
    forall i, j | 0 <= i < j < |kinds| ensures kinds[i] != kinds[j] {
      if kinds[i] == kinds[j] {
        RepairKindInjective(n, kept[i], n, kept[j]);
      }
    }
    forall i, j | 0 <= i < |r| && 0 <= j < |kinds| ensures r[i].kind != kinds[j] {
      NewKindIsNew(r[i].kind, retries, kept[j]);
    }
    assert forall j | 0 <= j < |kinds| :: kinds[j] == RepairKind(n, kept[j]) && KnownKind(kinds[j], n);
    AddNewKinds(r, n, kinds);
  }

  lemma NewKindIsNew(kind: string, retries: nat, action: string)
    requires KnownKind(kind, retries)
    ensures kind != RepairKind(retries + 1, action)
  {
    RepairKindIsNotBase(retries + 1, action);
    if !IsBase(kind) && kind == RepairKind(retries + 1, action) {
      var n: nat, b :| 1 <= n <= retries && kind == RepairKind(n, b);
      RepairKindInjective(n, b, retries + 1, action);
    }
  }

  lemma RuntimePlanOk(hasConstraints: bool, maxRetries: int)
    ensures var p := FromKinds(RuntimePlanKinds(hasConstraints, maxRetries));
      PlanOk(p, 0) && HasKind(p, VERIFY_OUTCOME) && HasKind(p, FINAL_RESPONSE)
  {
    var kinds := RuntimePlanKinds(hasConstraints, maxRetries);
    var p := FromKinds(kinds);
    RuntimeKinds(hasConstraints, maxRetries);
    AddNewKinds([], 0, kinds);
    AddStepsShape([], kinds);
    assert p[0 + (|kinds| - 1)].kind == FINAL_RESPONSE;
    var v := if hasConstraints then 4 else 3;
    assert p[0 + v].kind == kinds[v] == VERIFY_OUTCOME;
  }

  lemma RuntimeKinds(hasConstraints: bool, maxRetries: int)
    ensures var kinds := RuntimePlanKinds(hasConstraints, maxRetries);
      Distinct(kinds) && forall i | 0 <= i < |kinds| :: IsBase(kinds[i])
  {
    BaseKindsDiffer();
  }

  lemma BaseKindsDiffer()
    ensures Distinct([UNDERSTAND_TASK, INSPECT_CONTEXT, MODIFY_WORKSPACE, SATISFY_CONSTRAINTS,
                      VERIFY_OUTCOME, RECOVER_FAILURE, FINAL_RESPONSE])
  {
    assert UNDERSTAND_TASK[0] == 'u' && INSPECT_CONTEXT[0] == 'i' && MODIFY_WORKSPACE[0] == 'm'
        && SATISFY_CONSTRAINTS[0] == 's' && VERIFY_OUTCOME[0] == 'v' && RECOVER_FAILURE[0] == 'r'
        && FINAL_RESPONSE[0] == 'f';
  }

  lemma MarkKeepsPlanOk(p: PlanView, retries: nat, op: PlanOp)
    requires PlanOk(p, retries) && !op.Repair?
    ensures PlanOk(PlanAfter(p, op), retries)
  {
    var q := PlanAfter(p, op);
    assert forall i | 0 <= i < |p| :: q[i].kind == p[i].kind && q[i].index == p[i].index;
  }

  lemma RepairOfKeepsPlanOk(p: PlanView, retries: nat, d: Decision)
    requires PlanOk(p, retries) && d.retryIndex == retries + 1
    ensures PlanOk(PlanAfter(p, RepairOf(d)), retries + 1)
  {
    var strategy := if d.strategy.Some? then Some(d.strategy.value.strategy) else None;
    var categories := if d.strategy.Some? then d.strategy.value.categories else d.categories;
    var given := if d.strategy.Some? then d.strategy.value.actions else [];
    var actions := if given == [] then DefaultActions(strategy, categories) else given;
    RepairKeepsPlanOk(p, retries, RepairTarget(strategy, categories), Unique(actions), "plan repair strategy");
  }

  lemma PlanExtends(p: PlanView, op: PlanOp)
    ensures Extends(p, PlanAfter(p, op))
  {
    if op.Repair? {
      AddStepsShape(Reopen(p, op.target, op.evidence), op.kinds);
      var r := Reopen(p, op.target, op.evidence);
      assert forall i | 0 <= i < |p| :: PlanAfter(p, op)[i] == r[i];
    }
  }

  /** Which operation takes a step out of DONE, and to what. */
  predicate MayReopen(p: PlanView, op: PlanOp, i: nat)
  {
    match op
    case Mark(kind, status, _) => status.Blocked? && i == StepIndex(p, kind)
    case CompleteAll(_) => false
    case Repair(target, _, _) => i == StepIndex(p, target)
  }

  /** A step leaves DONE exactly when it is marked BLOCKED or is the target of a repair. */
  lemma DoneIsLeftExactly(p: PlanView, op: PlanOp, i: nat)
    requires i < |p| && p[i].status.Done?
    ensures i < |PlanAfter(p, op)|
    ensures PlanAfter(p, op)[i].status.Done? <==> !MayReopen(p, op, i)
    ensures MayReopen(p, op, i) ==> PlanAfter(p, op)[i].status == if op.Repair? then InProgress else Blocked
  {
    PlanExtends(p, op);
    if op.Repair? {
      var r := Reopen(p, op.target, op.evidence);
      AddStepsShape(r, op.kinds);
      assert PlanAfter(p, op)[i] == r[i];
    }
  }

  /** Over any run of operations a step that was DONE after the first a of them stays so unless one reopens it. */
  lemma {:induction false} DoneStaysDone(p: PlanView, ops: seq<PlanOp>, a: nat, i: nat)
    requires a <= |ops| && i < |Replay(p, ops[..a])| && Replay(p, ops[..a])[i].status.Done?
    requires forall k | a <= k < |ops| :: !MayReopen(Replay(p, ops[..k]), ops[k], i)
    ensures i < |Replay(p, ops)| && Replay(p, ops)[i].status.Done?
    decreases |ops| - a
  {
    if a == |ops| {
      assert ops[..a] == ops;
    } else {
      assert ops[..a + 1][..a] == ops[..a];
      DoneIsLeftExactly(Replay(p, ops[..a]), ops[a], i);
      DoneStaysDone(p, ops, a + 1, i);
    }
  }

  lemma FinishedIsComplete(p: PlanView, evidence: string)
    requires p != []
    ensures IsComplete(PlanAfter(p, CompleteAll(evidence)))
  {
    var q := Finished(p, evidence);
    assert forall i | 0 <= i < |q| :: q[i].status.Done?;
  }

  lemma BlockedIsNotComplete(p: PlanView, kind: string, evidence: string)
    requires HasKind(p, kind)
    ensures !IsComplete(PlanAfter(p, Mark(kind, Blocked, evidence)))
  {
    var q := PlanAfter(p, Mark(kind, Blocked, evidence));
    assert q[StepIndex(p, kind)].status.Blocked?;
    assert q[StepIndex(p, kind)] in q;
  }

  lemma KindIsKept(p: PlanView, op: PlanOp, kind: string)
    requires HasKind(p, kind)
    ensures HasKind(PlanAfter(p, op), kind)
  {
    PlanExtends(p, op);
    var i :| 0 <= i < |p| && p[i].kind == kind;
    assert PlanAfter(p, op)[i].kind == kind;
  }

  // ---------------------------------------------------------------------
  // The plan objects
  // ---------------------------------------------------------------------

  class PlanStep {
    const index: nat
    const kind: string
    var status: StepStatus
    var evidence: string

    constructor (index: nat, kind: string)
      ensures View() == StepView(index, kind, StepPending, "")
    {
      this.index, this.kind := index, kind;
      status, evidence := StepPending, "";
    }

    function View(): StepView
      reads this
    {
      StepView(index, kind, status, evidence)
    }

    method MarkStarted()
      modifies this
      ensures View() == old(View()).(status := InProgress)
    {
      status := InProgress;
    }

    method MarkDone(evidence: string)
      modifies this
      ensures View() == old(View()).(status := Done, evidence := evidence)
    {
      status := Done;
      this.evidence := evidence;
    }

    method MarkBlocked(evidence: string)
      modifies this
      ensures View() == old(View()).(status := Blocked, evidence := evidence)
    {
      status := Blocked;
      this.evidence := evidence;
    }
  }

  class TaskPlan {
    var steps: seq<PlanStep>

    ghost predicate Valid()
      reads this
    {
      forall i, j | 0 <= i < j < |steps| :: steps[i] != steps[j]
    }

    function View(): (p: PlanView)
      reads this, steps
      ensures |p| == |steps|
    {
      seq(|steps|, i requires 0 <= i < |steps| reads this, steps => steps[i].View())
    }

    /** TaskPlan.from_items */
    constructor (kinds: seq<string>)
      ensures Valid() && fresh(steps)
      ensures View() == FromKinds(kinds)
    {
      steps := [];
      new;
      AddStepItems(kinds);
    }

    method StepByKind(kind: string) returns (step: PlanStep?)
      ensures var i := StepIndex(View(), kind);
        step == if i < |steps| then steps[i] else null
    {
      var i := 0;
      while i < |steps|
        invariant i <= |steps|
        invariant forall j | 0 <= j < i :: View()[j].kind != kind
      {
        if steps[i].kind == kind {
          assert View()[i].kind == kind;
          return steps[i];
        }
        i := i + 1;
      }
      step := null;
    }

    method AddStepItems(kinds: seq<string>)
      requires Valid()
      modifies this
      ensures Valid() && fresh(set s | s in steps && s !in old(steps))
      ensures old(steps) <= steps
      ensures View() == AddSteps(old(View()), kinds)
    {
      for k := 0 to |kinds|
        invariant Valid() && old(steps) <= steps
        invariant fresh(set s | s in steps && s !in old(steps))
        invariant View() == AddSteps(old(View()), kinds[..k])
      {
        label L:
        assert kinds[..k + 1][..k] == kinds[..k];
        var step := new PlanStep(|steps| + 1, kinds[k]);
        steps := steps + [step];
        assert View() == old@L(View()) + [step.View()];
      }
      assert kinds[..|kinds|] == kinds;
    }

    /** PlanController.set_plan_step */
    method SetPlanStep(kind: string, status: StepStatus, evidence: string)
      requires Valid()
      modifies steps
      ensures View() == SetStep(old(View()), kind, status, evidence)
    {
      var step := StepByKind(kind);
      if step == null {
        return;
      }
      ghost var i := StepIndex(View(), kind);
      if step.status == status && step.evidence == evidence {
        assert View()[i := View()[i].(status := status, evidence := evidence)] == View();
        return;
      }
      if step.status.Done? && !status.Blocked? {
        return;
      }
      if status.InProgress? {
        step.MarkStarted();
        step.evidence := evidence;
      } else if status.Done? {
        step.MarkDone(evidence);
      } else if status.Blocked? {
        step.MarkBlocked(evidence);
      } else {
        step.status := status;
        step.evidence := evidence;
      }
      assert View() == old(View())[i := step.View()];
    }

    /** The direct assignment of CompletionController.apply_plan_repair. */
    method ReopenStep(kind: string, evidence: string)
      requires Valid()
      modifies steps
      ensures View() == Reopen(old(View()), kind, evidence)
    {
      var step := StepByKind(kind);
      if step != null {
        ghost var i := StepIndex(View(), kind);
        step.status := InProgress;
        step.evidence := evidence;
        assert View() == old(View())[i := step.View()];
      }
    }

    /** PlanController.complete */
    method Complete(evidence: string)
      requires Valid()
      modifies steps
      ensures View() == Finished(old(View()), evidence)
    {
      for i := 0 to |steps|
        invariant forall j | 0 <= j < i :: View()[j] == Finish(old(View())[j], evidence)
        invariant forall j | i <= j < |steps| :: View()[j] == old(View())[j]
      {
        label L:
        ghost var before := View();
        if !steps[i].status.Done? {
          steps[i].MarkDone(evidence);
        }
        assert View() == before[i := steps[i].View()];
      }
    }

    method Apply(op: PlanOp)
      requires Valid()
      modifies this, steps
      ensures Valid() && fresh(set s | s in steps && s !in old(steps))
      ensures View() == PlanAfter(old(View()), op)
    {
      match op {
        case Mark(kind, status, evidence) => SetPlanStep(kind, status, evidence);
        case CompleteAll(evidence) => Complete(evidence);
        case Repair(target, kinds, evidence) =>
          ReopenStep(target, evidence);
          AddStepItems(kinds);
      }
    }
  }

  // ---------------------------------------------------------------------
  // What plans and repairs hold
  // ---------------------------------------------------------------------

  /** A repair puts its target back to work, whatever its status, and adds its steps behind the plan. */
  lemma RepairSettles(p: PlanView, target: string, kinds: seq<string>, evidence: string)
    ensures var q, i := PlanAfter(p, Repair(target, kinds, evidence)), StepIndex(p, target);
      && |q| == |p| + |kinds|
      && (forall k | 0 <= k < |p| && k != i :: q[k] == p[k])
      && (i < |p| ==> q[i] == p[i].(status := InProgress, evidence := evidence))
      && (forall k | 0 <= k < |kinds| :: q[|p| + k] == StepView(|p| + k + 1, kinds[k], StepPending, ""))
  {
    ReopenSettles(p, target, evidence);
    AddStepsShape(Reopen(p, target, evidence), kinds);
  }

  lemma ReopenSettles(p: PlanView, target: string, evidence: string)
    ensures var q, i := Reopen(p, target, evidence), StepIndex(p, target);
      && |q| == |p| && (forall k | 0 <= k < |p| && k != i :: q[k] == p[k])
      && (i < |p| ==> q[i] == p[i].(status := InProgress, evidence := evidence))
  {
  }

  /** The steps of a runtime plan, in order; constraints and recovery only where they can come up. */
  lemma RuntimePlanSteps(hasConstraints: bool, maxRetries: int)
    ensures var kinds := RuntimePlanKinds(hasConstraints, maxRetries);
      && kinds[..3] == [UNDERSTAND_TASK, INSPECT_CONTEXT, MODIFY_WORKSPACE]
      && kinds[|kinds| - 1] == FINAL_RESPONSE && VERIFY_OUTCOME in kinds
      && (SATISFY_CONSTRAINTS in kinds <==> hasConstraints)
      && (RECOVER_FAILURE in kinds <==> maxRetries > 0)
      && |kinds| == 5 + (if hasConstraints then 1 else 0) + (if maxRetries > 0 then 1 else 0)
  {
  }

  /** Completion leaves DONE steps as they are, and finishes the others with its evidence. */
  lemma CompletionSettles(p: PlanView, evidence: string)
    ensures var q := PlanAfter(p, CompleteAll(evidence));
      && |q| == |p|
      && forall i | 0 <= i < |p| ::
        q[i] == if p[i].status.Done? then p[i] else p[i].(status := Done, evidence := evidence)
  {
  }

  /** A repair has at most six actions, the first ones, and at least one. */
  lemma RepairActionsAre(actions: seq<string>)
    ensures 1 <= |RepairActions(actions)| <= 6
    ensures actions == [] ==> RepairActions(actions) == ["recover"]
    ensures actions != [] ==> RepairActions(actions) <= actions
    ensures 1 <= |actions| <= 6 ==> RepairActions(actions) == actions
    ensures |actions| > 6 ==> |RepairActions(actions)| == 6
  {
  }
}
