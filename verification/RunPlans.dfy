// The runtime plan over a whole run: well-formed after every repair, complete
// exactly when the run succeeds.
module RunPlans {
  import opened Text
  import opened Conversation
  import opened Patching
  import opened RunTypes
  import opened Reflection
  import opened Planning
  import opened RunSpec
  import opened RunLedger

  function InitialPlan(cfg: Config): PlanView
  {
    FromKinds(RuntimePlanKinds(cfg.hasConstraints, cfg.maxRetries))
  }

  /** The plan after n retries: well-formed, and the outcome of the recorded operations. */
  ghost predicate PlanInv(cfg: Config, e: Engine, n: nat)
  {
    if !cfg.planning then e.plan.None?
    else
      && e.plan.Some? && PlanOk(e.plan.value, n)
      && HasKind(e.plan.value, VERIFY_OUTCOME) && HasKind(e.plan.value, FINAL_RESPONSE)
      && e.plan.value == Replay(InitialPlan(cfg), e.planOps)
  }

  lemma ReplaySnoc(p: PlanView, ops: seq<PlanOp>, op: PlanOp)
    ensures Replay(p, ops + [op]) == PlanAfter(Replay(p, ops), op)
  {
    assert (ops + [op])[..|ops|] == ops;
  }

  lemma MarkKeepsInv(cfg: Config, e: Engine, n: nat, op: PlanOp)
    requires PlanInv(cfg, e, n) && !op.Repair?
    ensures PlanInv(cfg, Plan(e, op), n)
  {
    if cfg.planning {
      var p := e.plan.value;
      MarkKeepsPlanOk(p, n, op);
      KindIsKept(p, op, VERIFY_OUTCOME);
      KindIsKept(p, op, FINAL_RESPONSE);
      ReplaySnoc(InitialPlan(cfg), e.planOps, op);
    }
  }

  lemma RepairKeepsInv(cfg: Config, e: Engine, n: nat, d: Decision)
    requires PlanInv(cfg, e, n) && d.retryIndex == n + 1 && cfg.planning
    ensures PlanInv(cfg, Plan(e, RepairOf(d)), n + 1)
  {
    var p, op := e.plan.value, RepairOf(d);
    RepairOfKeepsPlanOk(p, n, d);
    KindIsKept(p, op, VERIFY_OUTCOME);
    KindIsKept(p, op, FINAL_RESPONSE);
    ReplaySnoc(InitialPlan(cfg), e.planOps, op);
  }

  lemma {:induction false} PlanAllKeepsInv(cfg: Config, e: Engine, n: nat, ops: seq<PlanOp>)
    requires PlanInv(cfg, e, n) && forall op | op in ops :: !op.Repair?
    ensures PlanInv(cfg, PlanAll(e, ops), n)
    decreases |ops|
  {
    if ops != [] {
      PlanAllKeepsInv(cfg, e, n, ops[..|ops| - 1]);
      MarkKeepsInv(cfg, PlanAll(e, ops[..|ops| - 1]), n, ops[|ops| - 1]);
    }
  }

  lemma OneToolKeepsInv(cfg: Config, e: Engine, n: nat, call: Call, o: ToolOracle)
    requires PlanInv(cfg, e, n)
    ensures PlanInv(cfg, OneTool(cfg, e, call, o), n)
  {
    var out := Execute(e.files, call, o);
    var e1 := Noted(e, call, out);
    assert PlanInv(cfg, e1, n);
    if ToolMark(cfg, call, out).Some? {
      MarkKeepsInv(cfg, e1, n, ToolMark(cfg, call, out).value);
    }
  }

  lemma {:induction false} ToolsKeepInv(
      cfg: Config, e: Engine, n: nat, calls: seq<Call>, tools: nat -> ToolOracle, k: nat)
    requires k <= |calls| && PlanInv(cfg, e, n)
    ensures PlanInv(cfg, ToolsAfter(cfg, e, calls, tools, k).0, n)
    decreases k
  {
    if k > 0 {
      ToolsKeepInv(cfg, e, n, calls, tools, k - 1);
      OneToolKeepsInv(cfg, ToolsAfter(cfg, e, calls, tools, k - 1).0, n, calls[k - 1], tools(k - 1));
    }
  }

  // ---------------------------------------------------------------------
  // Completions
  // ---------------------------------------------------------------------

  lemma JudgedKeepsInv(cfg: Config, e: Engine, n: nat, r: VerificationReport)
    requires PlanInv(cfg, e, n)
    ensures PlanInv(cfg, Judged(cfg, e, r), n)
  {
    MarkKeepsInv(cfg, e, n, Mark(VERIFY_OUTCOME, InProgress, "model returned a final response"));
    var e1 := Verifying(e).(verification := Some(r));
    PlanAllKeepsInv(cfg, e1, n, VerificationMarks(r));
  }

  lemma PromptedKeepsInv(cfg: Config, e: Engine, d: Decision, prompt: string)
    requires PlanInv(cfg, e, RetryCount(e.retries) + 1) && d.status == Retry
    ensures var f := Prompted(cfg, e, d, prompt); PlanInv(cfg, f, RetryCount(f.retries))
  {
    RetryCountSnoc(e.retries, e.retries + [d]);
    MarkKeepsInv(cfg, e.(retries := e.retries + [d]), RetryCount(e.retries) + 1,
                 Mark(RECOVER_FAILURE, InProgress, "reflection report is retryable and budget remains"));
  }

  lemma RetryingKeepsInv(cfg: Config, e: Engine, d: Decision, prompt: string)
    requires PlanInv(cfg, e, RetryCount(e.retries))
    requires d.status == Retry && d.retryIndex == RetryCount(e.retries) + 1
    ensures var f := Retrying(cfg, e, d, prompt); PlanInv(cfg, f, RetryCount(f.retries))
  {
    if cfg.planning {
      RepairKeepsInv(cfg, e, RetryCount(e.retries), d);
    }
    PromptedKeepsInv(cfg, Repaired(cfg, e, RepairOf(d)), d, prompt);
  }

  lemma StoppingKeepsInv(cfg: Config, e: Engine, d: Decision)
    requires PlanInv(cfg, e, RetryCount(e.retries)) && d.status != Retry
    ensures var f := Stopping(e, d); PlanInv(cfg, f, RetryCount(f.retries))
  {
    RetryCountSnoc(e.retries, e.retries + [d]);
    MarkKeepsInv(cfg, e.(retries := e.retries + [d]), RetryCount(e.retries),
                 Mark(RECOVER_FAILURE, Blocked, StopText(d.status)));
  }

  lemma ScheduledKeepsInv(cfg: Config, e: Engine, o: CompletionOracle)
    requires PlanInv(cfg, e, RetryCount(e.retries))
    ensures var f := Scheduled(cfg, e, o).0; PlanInv(cfg, f, RetryCount(f.retries))
  {
    if cfg.maxRetries > 0 {
      var d := DecisionShape(cfg, e, o);
      if d.status == Retry {
        RetryingKeepsInv(cfg, e, d, o.prompt);
      } else {
        StoppingKeepsInv(cfg, e, d);
      }
    }
  }

  /** What the plan says about the outcome of a run. */
  ghost predicate PlanAgrees(cfg: Config, e: Engine)
  {
    cfg.planning ==> e.plan.Some? && (e.status == TaskSucceeded <==> IsComplete(e.plan.value))
  }

  lemma BlockedAgrees(cfg: Config, e: Engine, n: nat, kind: string, text: string)
    requires PlanInv(cfg, e, n) && kind in {VERIFY_OUTCOME, FINAL_RESPONSE}
    ensures var f := FailedBy(e, Mark(kind, Blocked, text));
      PlanInv(cfg, f, n) && PlanAgrees(cfg, f)
  {
    MarkKeepsInv(cfg, e.(status := TaskFailed), n, Mark(kind, Blocked, text));
    if cfg.planning {
      BlockedIsNotComplete(e.plan.value, kind, text);
    }
  }

  ghost predicate PlanEnds(cfg: Config, e: Engine)
  {
    PlanInv(cfg, e, RetryCount(e.retries)) && PlanAgrees(cfg, e)
  }

  lemma PlanInvSame(cfg: Config, e: Engine, f: Engine)
    requires PlanInv(cfg, e, RetryCount(e.retries))
    requires f.retries == e.retries && f.plan == e.plan && f.planOps == e.planOps
    ensures PlanInv(cfg, f, RetryCount(f.retries))
  {
  }

  lemma AfterFailurePlan(cfg: Config, e: Engine, failed: bool, o: CompletionOracle)
    requires PlanInv(cfg, e, RetryCount(e.retries))
    ensures var (f, done) := AfterFailure(cfg, e, failed, o);
      PlanInv(cfg, f, RetryCount(f.retries)) && (done ==> PlanAgrees(cfg, f))
  {
    var e1 := if failed && cfg.autoRollback then RolledBack(e, o.restore) else e;
    var e2 := Reflecting(cfg, e1);
    PlanInvSame(cfg, e, e2);
    ScheduledKeepsInv(cfg, e2, o);
    var (e3, again) := Scheduled(cfg, e2, o);
    if !again {
      StoppedPlan(cfg, e3, o.summary);
      assert AfterFailure(cfg, e, failed, o).0 == End(FailedBy(e3, Mark(FINAL_RESPONSE, Blocked, o.summary)), false);
    }
  }

  lemma StoppedPlan(cfg: Config, e: Engine, text: string)
    requires PlanInv(cfg, e, RetryCount(e.retries))
    ensures PlanEnds(cfg, End(FailedBy(e, Mark(FINAL_RESPONSE, Blocked, text)), false))
  {
    BlockedAgrees(cfg, e, RetryCount(e.retries), FINAL_RESPONSE, text);
  }

  lemma CompletePlan(cfg: Config, e: Engine, o: CompletionOracle)
    requires PlanInv(cfg, e, RetryCount(e.retries))
    ensures var (f, done) := Complete(cfg, e, o);
      PlanInv(cfg, f, RetryCount(f.retries)) && (done ==> PlanAgrees(cfg, f))
  {
    var n := RetryCount(e.retries);
    if o.verdict.None? {
      MarkKeepsInv(cfg, e, n, Mark(VERIFY_OUTCOME, InProgress, "model returned a final response"));
      BlockedAgrees(cfg, Verifying(e), n, VERIFY_OUTCOME, o.error);
    } else {
      var r := o.verdict.value;
      var judged := Judged(cfg, e, r);
      JudgedShape(cfg, e, r);
      JudgedKeepsInv(cfg, e, n, r);
      if r.status.CheckFailed? || PolicyFailed(cfg, judged) {
        AfterFailurePlan(cfg, judged, r.status.CheckFailed?, o);
      } else {
        MarkKeepsInv(cfg, judged.(status := TaskSucceeded), n, CompleteAll("task finished successfully"));
        if cfg.planning {
          FinishedIsComplete(judged.plan.value, "task finished successfully");
        }
      }
    }
  }

  // ---------------------------------------------------------------------
  // Turns and runs
  // ---------------------------------------------------------------------

  lemma BudgetPlan(cfg: Config, e: Engine, reason: Reason, text: string)
    requires PlanInv(cfg, e, RetryCount(e.retries))
    ensures PlanEnds(cfg, FailForBudget(e, reason, text))
  {
    var e1 := Exhaust(e, reason);
    BlockedAgrees(cfg, e1, RetryCount(e.retries), FINAL_RESPONSE, text);
  }

  lemma AfterResponsePlan(cfg: Config, e: Engine, calls: seq<Call>, o: TurnOracle)
    requires PlanInv(cfg, e, RetryCount(e.retries))
    ensures var (f, out) := AfterResponse(cfg, e, calls, o);
      PlanInv(cfg, f, RetryCount(f.retries)) && (out == Returned ==> PlanAgrees(cfg, f))
  {
    var reason := LimitReason(cfg, e.budget, o.responseClock);
    if reason.Some? {
      BudgetPlan(cfg, e, reason.value, ReasonText(reason.value));
    } else if calls == [] {
      CompletePlan(cfg, e, o.completion);
    } else {
      ToolsKeepInv(cfg, e, RetryCount(e.retries), calls, o.tools, |calls|);
      ToolsFrame(cfg, e, calls, o.tools, |calls|);
      var f := AfterBatch(cfg, e, calls, o.tools);
      var spent := LimitReason(cfg, f.budget, o.toolsClock);
      if spent.Some? {
        BudgetPlan(cfg, f, spent.value, ReasonText(spent.value));
      }
    }
  }

  lemma TurnPlan(cfg: Config, e: Engine, o: TurnOracle)
    requires PlanInv(cfg, e, RetryCount(e.retries))
    ensures var (f, out) := Turn(cfg, e, o);
      PlanInv(cfg, f, RetryCount(f.retries)) && (out == Returned ==> PlanAgrees(cfg, f))
  {
    var reason := LimitReason(cfg, e.budget, o.beginClock);
    if reason.Some? {
      BudgetPlan(cfg, e, reason.value, ReasonText(reason.value));
    } else if o.response.Some? {
      var blocks := o.response.value;
      AfterResponsePlan(cfg, Say(cfg, BeginTurn(e), Message(Assistant, Blocks(blocks))), CallsOf(blocks), o);
    }
  }

  lemma {:induction false} LoopPlan(cfg: Config, e: Engine, env: nat -> TurnOracle, k: nat)
    requires PlanInv(cfg, e, RetryCount(e.retries))
    ensures var (f, out) := Loop(cfg, e, env, k);
      PlanInv(cfg, f, RetryCount(f.retries)) && (out == Returned ==> PlanAgrees(cfg, f))
    decreases cfg.maxTurns - k
  {
    if k >= cfg.maxTurns {
      BlockedAgrees(cfg, Exhaust(e, MaxTurns), RetryCount(e.retries), FINAL_RESPONSE, ReasonText(MaxTurns));
    } else {
      TurnPlan(cfg, e, env(k));
      if Turn(cfg, e, env(k)).1 == Continue {
        LoopPlan(cfg, Turn(cfg, e, env(k)).0, env, k + 1);
      }
    }
  }

  lemma OpenedPlan(cfg: Config, files: Files, opening: Opening)
    ensures PlanInv(cfg, Opened(cfg, files, opening), 0) && Opened(cfg, files, opening).retries == []
  {
    var e := Say(cfg, NewEngine(files, opening.clock), Message(User, Plain(opening.task)));
    assert e.plan.None? && e.retries == [] && e.planOps == [];
    if cfg.planning {
      CreatedPlan(cfg, e, opening.planMessage);
      BegunPlan(cfg, Created(cfg, e, opening.planMessage));
    }
  }

  lemma CreatedPlan(cfg: Config, e: Engine, message: string)
    requires cfg.planning && e.planOps == []
    ensures PlanInv(cfg, Created(cfg, e, message), 0) && Created(cfg, e, message).retries == e.retries
  {
    RuntimePlanOk(cfg.hasConstraints, cfg.maxRetries);
  }

  lemma BegunPlan(cfg: Config, e: Engine)
    requires PlanInv(cfg, e, 0)
    ensures PlanInv(cfg, Begun(e), 0) && Begun(e).retries == e.retries
  {
    var done := Mark(UNDERSTAND_TASK, Done, "runtime plan created from task and config");
    MarkKeepsInv(cfg, e, 0, done);
    MarkKeepsInv(cfg, Plan(e, done), 0, Mark(INSPECT_CONTEXT, InProgress, "ready to gather context"));
  }

  /**
   * Over every run and any number of repairs, plan step i has index i + 1 and all
   * kinds differ; a run that returns has succeeded exactly if every step, those of
   * repairs included, is DONE.
   */
  lemma PlanOfRun(cfg: Config, files: Files, opening: Opening, env: nat -> TurnOracle)
    requires cfg.planning
    ensures var (e, out) := Run(cfg, files, opening, env);
      && e.plan.Some? && PlanOk(e.plan.value, RetryCount(e.retries))
      && (out == Returned ==> (e.status == TaskSucceeded <==> IsComplete(e.plan.value)))
  {
    OpenedPlan(cfg, files, opening);
    LoopPlan(cfg, Opened(cfg, files, opening), env, 0);
  }

  /**
   * A step that was DONE at some point of a run and is not at its end was marked
   * BLOCKED, or was the target of a plan repair, in between.
   */
  lemma DoneIsLeftOnlyByBlockOrRepair(
      cfg: Config, files: Files, opening: Opening, env: nat -> TurnOracle, a: nat, i: nat)
    requires cfg.planning
    requires var e := Run(cfg, files, opening, env).0;
      && a <= |e.planOps| && i < |Replay(InitialPlan(cfg), e.planOps[..a])|
      && Replay(InitialPlan(cfg), e.planOps[..a])[i].status.Done?
    ensures var e := Run(cfg, files, opening, env).0;
      e.plan.Some? && i < |e.plan.value|
    ensures var e := Run(cfg, files, opening, env).0;
      e.plan.value[i].status.Done?
      || exists k :: a <= k < |e.planOps| && MayReopen(Replay(InitialPlan(cfg), e.planOps[..k]), e.planOps[k], i)
  {
    OpenedPlan(cfg, files, opening);
    LoopPlan(cfg, Opened(cfg, files, opening), env, 0);
    DoneOrReopened(InitialPlan(cfg), Run(cfg, files, opening, env).0.planOps, a, i);
  }

  lemma DoneOrReopened(p: PlanView, ops: seq<PlanOp>, a: nat, i: nat)
    requires a <= |ops| && i < |Replay(p, ops[..a])| && Replay(p, ops[..a])[i].status.Done?
    ensures i < |Replay(p, ops)|
    ensures Replay(p, ops)[i].status.Done?
      || exists k :: a <= k < |ops| && MayReopen(Replay(p, ops[..k]), ops[k], i)
  {
    PrefixOfReplay(p, ops, a);
    if !exists k :: a <= k < |ops| && MayReopen(Replay(p, ops[..k]), ops[k], i) {
      DoneStaysDone(p, ops, a, i);
    }
  }

  lemma {:induction false} PrefixOfReplay(p: PlanView, ops: seq<PlanOp>, a: nat)
    requires a <= |ops|
    ensures |Replay(p, ops[..a])| <= |Replay(p, ops)|
  {
    if a == |ops| {
      assert ops[..a] == ops;
    } else {
      var head := ops[..|ops| - 1];
      assert head[..a] == ops[..a];
      PrefixOfReplay(p, head, a);
      PlanExtends(Replay(p, head), ops[|ops| - 1]);
    }
  }

  /** A run begins with its task understood, its context being inspected, and all else to come. */
  lemma OpenedPlanShows(cfg: Config, files: Files, opening: Opening)
    requires cfg.planning
    ensures var p, kinds := Opened(cfg, files, opening).plan, RuntimePlanKinds(cfg.hasConstraints, cfg.maxRetries);
      && p.Some? && |p.value| == |kinds|
      && forall i | 0 <= i < |kinds| ::
        && p.value[i].kind == kinds[i] && p.value[i].index == i + 1
        && p.value[i].status == if i == 0 then Done else if i == 1 then InProgress else StepPending
  {
    var kinds := RuntimePlanKinds(cfg.hasConstraints, cfg.maxRetries);
    FreshPlan(kinds);
    OpeningKinds(cfg.hasConstraints, cfg.maxRetries);
    StartsPlan(FromKinds(kinds));
    OpenedPlanIs(cfg, files, opening);
  }

  lemma OpeningKinds(hasConstraints: bool, maxRetries: int)
    ensures var kinds := RuntimePlanKinds(hasConstraints, maxRetries);
      |kinds| >= 2 && kinds[0] == UNDERSTAND_TASK && kinds[1] == INSPECT_CONTEXT
  {
  }

  lemma FreshPlan(kinds: seq<string>)
    ensures |FromKinds(kinds)| == |kinds|
    ensures forall i | 0 <= i < |kinds| :: FromKinds(kinds)[i] == StepView(i + 1, kinds[i], StepPending, "")
  {
    var empty: PlanView := [];
    AddStepsShape(empty, kinds);
    forall i | 0 <= i < |kinds| ensures FromKinds(kinds)[i] == StepView(i + 1, kinds[i], StepPending, "") {
      assert AddSteps(empty, kinds)[|empty| + i] == StepView(|empty| + i + 1, kinds[i], StepPending, "");
    }
  }

  lemma OpenedPlanIs(cfg: Config, files: Files, opening: Opening)
    requires cfg.planning
    ensures Opened(cfg, files, opening).plan == Some(Started(FromKinds(RuntimePlanKinds(cfg.hasConstraints, cfg.maxRetries))))
  {
  }

  /** The first step done, the second at work. */
  function Started(p: PlanView): PlanView
  {
    SetStep(SetStep(p, UNDERSTAND_TASK, Done, "runtime plan created from task and config"),
            INSPECT_CONTEXT, InProgress, "ready to gather context")
  }

  lemma StartsPlan(p: PlanView)
    requires |p| >= 2 && p[0].kind == UNDERSTAND_TASK && p[1].kind == INSPECT_CONTEXT
    requires forall i | 0 <= i < |p| :: p[i].status.StepPending?
    ensures var q := Started(p);
      && |q| == |p| && q[0].status.Done? && q[1].status.InProgress?
      && (forall i | 0 <= i < |p| :: q[i].kind == p[i].kind && q[i].index == p[i].index)
      && forall i | 2 <= i < |p| :: q[i] == p[i]
  {
    assert StepIndex(p, UNDERSTAND_TASK) == 0;
    var q := SetStep(p, UNDERSTAND_TASK, Done, "runtime plan created from task and config");
    assert UNDERSTAND_TASK[0] != INSPECT_CONTEXT[0];
    assert StepIndex(q, INSPECT_CONTEXT) == 1;
  }
}
