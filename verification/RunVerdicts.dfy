// Verdicts over a whole run: a failed patch policy is never outlived, and a critical
// violation or an incomplete rollback ends the run where it happens.
module RunVerdicts {
  import opened Text
  import opened Conversation
  import opened Patching
  import opened PatchPolicy
  import opened RunTypes
  import opened Reflection
  import opened Planning
  import opened RunSpec
  import opened RunLedger

  // ---------------------------------------------------------------------
  // What one completion records
  // ---------------------------------------------------------------------

  ghost function ChecksOf(cfg: Config, e: Engine, o: CompletionOracle): seq<PolicyCheck>
  {
    if o.verdict.Some? && cfg.policyOn then [CheckOf(cfg, e)] else []
  }

  predicate RollsBack(cfg: Config, o: CompletionOracle)
  {
    o.verdict.Some? && o.verdict.value.status.CheckFailed? && cfg.autoRollback
  }

  ghost function RollbacksOf(cfg: Config, e: Engine, o: CompletionOracle): seq<Rollback>
  {
    if RollsBack(cfg, o) then [RollbackOf(e, o.restore)] else []
  }

  /** The completion's rollback, policy check and files, and what a retry or a success says of them. */
  ghost predicate Effects(cfg: Config, e: Engine, o: CompletionOracle, f: Engine, done: bool)
  {
    && f.journal.policies == e.journal.policies + ChecksOf(cfg, e, o)
    && f.journal.rollbacks == e.journal.rollbacks + RollbacksOf(cfg, e, o)
    && f.files == (if RollsBack(cfg, o) then RollbackOf(e, o.restore).files else e.files)
    && (!done && cfg.policyOn ==> o.verdict.Some? && !CheckOf(cfg, e).critical)
    && (!done && RollsBack(cfg, o) ==> RollbackOf(e, o.restore).report.failed == 0)
    && (f.status == TaskSucceeded && cfg.policyOn ==> o.verdict.Some? && !CheckOf(cfg, e).failed)
  }

  ghost predicate FailureEffects(e: Engine, rolls: bool, rollback: Rollback, f: Engine, done: bool)
  {
    && f.journal.policies == e.journal.policies
    && f.journal.rollbacks == e.journal.rollbacks + (if rolls then [rollback] else [])
    && f.files == (if rolls then rollback.files else e.files)
    && (!done ==> f.status == e.status && !CriticalPolicy(e.policy))
    && (!done && rolls ==> rollback.report.failed == 0)
    && (done ==> f.status == TaskFailed)
  }

  /** The state a retry is decided from. */
  ghost predicate ReflectedFrom(e: Engine, rolls: bool, rollback: Rollback, f: Engine)
  {
    && f.status == e.status && f.policy == e.policy
    && f.rollback == (if rolls then Some(rollback.report) else e.rollback)
    && f.files == (if rolls then rollback.files else e.files)
    && f.journal == e.journal.(
        rollbacks := e.journal.rollbacks + (if rolls then [rollback] else []))
  }

  lemma ReflectedShape(cfg: Config, e: Engine, failed: bool, restore: nat -> RestoreIo)
    ensures var rolls := failed && cfg.autoRollback;
      ReflectedFrom(e, rolls, RollbackOf(e, restore), Reflecting(cfg, if rolls then RolledBack(e, restore) else e))
  {
    assert e.journal.rollbacks + [] == e.journal.rollbacks;
  }

  lemma EffectsOfDecision(cfg: Config, e: Engine, rolls: bool, rollback: Rollback, f: Engine, o: CompletionOracle)
    requires ReflectedFrom(e, rolls, rollback, f)
    ensures var (g, again) := Scheduled(cfg, f, o);
      && FailureEffects(e, rolls, rollback, if again then g else End(FailedBy(g, Mark(FINAL_RESPONSE, Blocked, o.summary)), false), !again)
  {
    ScheduledShape(cfg, f, o);
    if Scheduled(cfg, f, o).1 {
      RetryNeedsCleanEvidence(cfg, f, o);
    }
  }

  lemma AfterFailureEffects(cfg: Config, e: Engine, failed: bool, o: CompletionOracle)
    ensures var (f, done) := AfterFailure(cfg, e, failed, o);
      FailureEffects(e, failed && cfg.autoRollback, RollbackOf(e, o.restore), f, done)
  {
    var rolls := failed && cfg.autoRollback;
    var e2 := Reflecting(cfg, if rolls then RolledBack(e, o.restore) else e);
    ReflectedShape(cfg, e, failed, o.restore);
    EffectsOfDecision(cfg, e, rolls, RollbackOf(e, o.restore), e2, o);
  }

  lemma SameRollback(e: Engine, f: Engine, restore: nat -> RestoreIo)
    requires e.trajectory == f.trajectory && e.files == f.files && e.budget == f.budget
    requires e.journal.attempts == f.journal.attempts
    ensures RollbackOf(e, restore) == RollbackOf(f, restore)
  {
  }

  /** The failure branch, seen from the state before the verdicts. */
  lemma FailureFromJudged(
      cfg: Config, e: Engine, o: CompletionOracle, judged: Engine, rollback: Rollback, f: Engine, done: bool)
    requires o.verdict.Some? && e.status == TaskRunning && JudgedFrom(cfg, e, o.verdict.value, judged)
    requires rollback == RollbackOf(e, o.restore)
    requires FailureEffects(judged, RollsBack(cfg, o), rollback, f, done)
    ensures Effects(cfg, e, o, f, done)
  {
  }

  lemma CompleteEffects(cfg: Config, e: Engine, o: CompletionOracle)
    requires e.status == TaskRunning
    ensures Effects(cfg, e, o, Complete(cfg, e, o).0, Complete(cfg, e, o).1)
  {
    var (f, done) := Complete(cfg, e, o);
    if o.verdict.Some? {
      var r := o.verdict.value;
      var judged := Judged(cfg, e, r);
      JudgedShape(cfg, e, r);
      if r.status.CheckFailed? || PolicyFailed(cfg, judged) {
        AfterFailureEffects(cfg, judged, r.status.CheckFailed?, o);
        SameRollback(e, judged, o.restore);
        FailureFromJudged(cfg, e, o, judged, RollbackOf(e, o.restore), f, done);
      }
    }
  }

  // ---------------------------------------------------------------------
  // The trajectory only grows
  // ---------------------------------------------------------------------

  lemma {:induction false} ToolsGrow(cfg: Config, e: Engine, calls: seq<Call>, tools: nat -> ToolOracle, k: nat)
    requires k <= |calls|
    ensures e.trajectory <= ToolsAfter(cfg, e, calls, tools, k).0.trajectory
    decreases k
  {
    if k > 0 {
      ToolsGrow(cfg, e, calls, tools, k - 1);
    }
  }

  lemma BreachStays(limits: Limits, before: seq<Step>, after: seq<Step>)
    requires before <= after && Breach(limits, PatchesOf(before))
    ensures Breach(limits, PatchesOf(after))
  {
    var more := after[|before|..];
    assert after == before + more;
    PatchesConcat(before, more);
    BreachIsMonotone(limits, PatchesOf(before), PatchesOf(more));
  }

  // ---------------------------------------------------------------------
  // A failed policy check is never outlived
  // ---------------------------------------------------------------------

  predicate FailedIn(checks: seq<PolicyCheck>)
  {
    exists i :: 0 <= i < |checks| && checks[i].failed
  }

  lemma FailedInConcat(a: seq<PolicyCheck>, b: seq<PolicyCheck>)
    ensures FailedIn(a + b) <==> FailedIn(a) || FailedIn(b)
  {
    assert forall i | 0 <= i < |a| :: (a + b)[i] == a[i];
    assert forall i | 0 <= i < |b| :: (a + b)[|a| + i] == b[i];
  }

  predicate AnyFailed(e: Engine)
  {
    FailedIn(e.journal.policies)
  }

  /** A failed check in the past is a breach still. */
  ghost predicate RemembersIn(cfg: Config, checks: seq<PolicyCheck>, trajectory: seq<Step>)
  {
    FailedIn(checks) ==> cfg.policyOn && Breach(cfg.limits, PatchesOf(trajectory))
  }

  ghost predicate Remembers(cfg: Config, e: Engine)
  {
    RemembersIn(cfg, e.journal.policies, e.trajectory)
  }

  lemma CompleteRemembers(cfg: Config, e: Engine, o: CompletionOracle)
    requires e.status == TaskRunning && Remembers(cfg, e)
    ensures var f := Complete(cfg, e, o).0;
      Remembers(cfg, f) && (AnyFailed(f) ==> f.status != TaskSucceeded)
  {
    var f := Complete(cfg, e, o).0;
    CompleteEffects(cfg, e, o);
    CompleteShape(cfg, e, o);
    FailedExactly(cfg.limits, PatchesOf(e.trajectory));
    FailedInConcat(e.journal.policies, ChecksOf(cfg, e, o));
    NewChecksFailed(cfg, e, o);
  }

  lemma NewChecksFailed(cfg: Config, e: Engine, o: CompletionOracle)
    ensures FailedIn(ChecksOf(cfg, e, o)) <==> o.verdict.Some? && cfg.policyOn && CheckOf(cfg, e).failed
  {
    if o.verdict.Some? && cfg.policyOn {
      assert ChecksOf(cfg, e, o)[0] == CheckOf(cfg, e);
    }
  }

  lemma BatchRemembers(cfg: Config, e: Engine, calls: seq<Call>, tools: nat -> ToolOracle)
    requires Remembers(cfg, e)
    ensures Remembers(cfg, AfterBatch(cfg, e, calls, tools))
  {
    ToolsGrow(cfg, e, calls, tools, |calls|);
    ToolsFrame(cfg, e, calls, tools, |calls|);
    var f := AfterBatch(cfg, e, calls, tools);
    assert f.journal.policies == e.journal.policies;
    if AnyFailed(f) {
      assert AnyFailed(e);
      BreachStays(cfg.limits, e.trajectory, f.trajectory);
    }
  }

  /** What the verdict argument is about. */
  ghost predicate RemembersAfter(cfg: Config, f: Engine)
  {
    Remembers(cfg, f) && (AnyFailed(f) ==> f.status != TaskSucceeded)
  }

  lemma SameRemembers(cfg: Config, e: Engine, f: Engine)
    requires Remembers(cfg, e) && f.status != TaskSucceeded
    requires f.journal.policies == e.journal.policies && f.trajectory == e.trajectory
    ensures RemembersAfter(cfg, f)
  {
    assert AnyFailed(f) <==> AnyFailed(e);
  }

  lemma AfterResponseRemembers(cfg: Config, e: Engine, calls: seq<Call>, o: TurnOracle)
    requires e.status == TaskRunning && Remembers(cfg, e)
    ensures RemembersAfter(cfg, AfterResponse(cfg, e, calls, o).0)
  {
    var reason := LimitReason(cfg, e.budget, o.responseClock);
    if reason.Some? {
      SameRemembers(cfg, e, FailForBudget(e, reason.value, ReasonText(reason.value)));
    } else if calls == [] {
      CompleteRemembers(cfg, e, o.completion);
    } else {
      BatchThenBudgetRemembers(cfg, e, calls, o);
    }
  }

  lemma BatchThenBudgetRemembers(cfg: Config, e: Engine, calls: seq<Call>, o: TurnOracle)
    requires e.status == TaskRunning && Remembers(cfg, e)
    ensures var f := AfterBatch(cfg, e, calls, o.tools);
      RemembersAfter(cfg, f)
      && forall reason, text :: RemembersAfter(cfg, FailForBudget(f, reason, text))
  {
    var f := AfterBatch(cfg, e, calls, o.tools);
    BatchRemembers(cfg, e, calls, o.tools);
    ToolsFrame(cfg, e, calls, o.tools, |calls|);
    SameRemembers(cfg, f, f);
    forall reason, text ensures RemembersAfter(cfg, FailForBudget(f, reason, text)) {
      SameRemembers(cfg, f, FailForBudget(f, reason, text));
    }
  }

  lemma TurnRemembers(cfg: Config, e: Engine, o: TurnOracle)
    requires e.status == TaskRunning && Remembers(cfg, e)
    ensures RemembersAfter(cfg, Turn(cfg, e, o).0)
  {
    if LimitReason(cfg, e.budget, o.beginClock).None? && o.response.Some? {
      var blocks := o.response.value;
      var e1 := Say(cfg, BeginTurn(e), Message(Assistant, Blocks(blocks)));
      SameRemembers(cfg, e, e1);
      AfterResponseRemembers(cfg, e1, CallsOf(blocks), o);
    } else {
      SameRemembers(cfg, e, Turn(cfg, e, o).0);
    }
  }

  lemma {:induction false} LoopRemembers(cfg: Config, e: Engine, env: nat -> TurnOracle, k: nat)
    requires Running(cfg, e, k) && Remembers(cfg, e)
    ensures var f := Loop(cfg, e, env, k).0; AnyFailed(f) ==> f.status != TaskSucceeded
    decreases cfg.maxTurns - k
  {
    if k < cfg.maxTurns {
      TurnRemembers(cfg, e, env(k));
      TurnLedger(cfg, e, env(k), k);
      if Turn(cfg, e, env(k)).1 == Continue {
        LoopRemembers(cfg, Turn(cfg, e, env(k)).0, env, k + 1);
      }
    }
  }

  /** A run in which the patch policy failed once never ends as a success, whatever retries follow. */
  lemma PolicyFailureIsFinal(cfg: Config, files: Files, opening: Opening, env: nat -> TurnOracle)
    ensures var e := Run(cfg, files, opening, env).0; AnyFailed(e) ==> e.status == TaskFailed
  {
    OpenedIsRunning(cfg, files, opening);
    LoopRemembers(cfg, Opened(cfg, files, opening), env, 0);
    RunEndsOnce(cfg, files, opening, env);
  }

  // ---------------------------------------------------------------------
  // What ends a run at once
  // ---------------------------------------------------------------------

  /** Critical checks and incomplete rollbacks happened in this turn only. */
  ghost predicate FatalOnlyIn(e: Engine, turn: nat)
  {
    && (forall i | 0 <= i < |e.journal.policies| ::
          e.journal.policies[i].critical ==> e.journal.policies[i].turn == turn)
    && (forall i | 0 <= i < |e.journal.rollbacks| ::
          e.journal.rollbacks[i].report.failed > 0 ==> e.journal.rollbacks[i].turn == turn)
  }

  ghost predicate NoFatal(e: Engine)
  {
    && (forall i | 0 <= i < |e.journal.policies| :: !e.journal.policies[i].critical)
    && (forall i | 0 <= i < |e.journal.rollbacks| :: e.journal.rollbacks[i].report.failed == 0)
  }

  lemma CompleteFatal(cfg: Config, e: Engine, o: CompletionOracle)
    requires e.status == TaskRunning && NoFatal(e)
    ensures var (f, done) := Complete(cfg, e, o);
      && FatalOnlyIn(f, e.budget.turns)
      && (!done ==> NoFatal(f)) && (f.status == TaskSucceeded ==> NoFatal(f))
  {
    CompleteEffects(cfg, e, o);
    if Complete(cfg, e, o).0.status == TaskSucceeded {
      SuccessRollsNothingBack(cfg, e, o);
    }
  }

  lemma SuccessRollsNothingBack(cfg: Config, e: Engine, o: CompletionOracle)
    requires e.status == TaskRunning && Complete(cfg, e, o).0.status == TaskSucceeded
    ensures !RollsBack(cfg, o)
  {
    if RollsBack(cfg, o) {
      JudgedShape(cfg, e, o.verdict.value);
      AfterFailureShape(cfg, Judged(cfg, e, o.verdict.value), true, o);
    }
  }

  ghost predicate FatalStep(f: Engine, out: Outcome, turn: nat)
  {
    && f.budget.turns == turn && FatalOnlyIn(f, turn)
    && (out == Continue || f.status == TaskSucceeded ==> NoFatal(f))
  }

  lemma SameJournal(e: Engine, f: Engine, out: Outcome)
    requires NoFatal(e) && f.budget.turns == e.budget.turns
    requires f.journal.policies == e.journal.policies && f.journal.rollbacks == e.journal.rollbacks
    ensures FatalStep(f, out, e.budget.turns)
  {
  }

  lemma AfterResponseFatal(cfg: Config, e: Engine, calls: seq<Call>, o: TurnOracle)
    requires e.status == TaskRunning && NoFatal(e)
    ensures var (f, out) := AfterResponse(cfg, e, calls, o); FatalStep(f, out, e.budget.turns)
  {
    var reason := LimitReason(cfg, e.budget, o.responseClock);
    if reason.Some? {
      SameJournal(e, FailForBudget(e, reason.value, ReasonText(reason.value)), Returned);
    } else if calls == [] {
      CompleteFatal(cfg, e, o.completion);
      CompleteShape(cfg, e, o.completion);
    } else {
      BatchFatal(cfg, e, calls, o);
    }
  }

  lemma BatchFatal(cfg: Config, e: Engine, calls: seq<Call>, o: TurnOracle)
    requires e.status == TaskRunning && NoFatal(e)
    ensures var f := AfterBatch(cfg, e, calls, o.tools);
      FatalStep(f, Continue, e.budget.turns)
      && forall reason, text :: FatalStep(FailForBudget(f, reason, text), Returned, e.budget.turns)
  {
    var f := AfterBatch(cfg, e, calls, o.tools);
    ToolsFrame(cfg, e, calls, o.tools, |calls|);
    SameJournal(e, f, Continue);
    forall reason, text ensures FatalStep(FailForBudget(f, reason, text), Returned, e.budget.turns) {
      SameJournal(e, FailForBudget(f, reason, text), Returned);
    }
  }

  lemma TurnFatal(cfg: Config, e: Engine, o: TurnOracle)
    requires e.status == TaskRunning && NoFatal(e)
    ensures var (f, out) := Turn(cfg, e, o); FatalStep(f, out, f.budget.turns)
  {
    var (f, out) := Turn(cfg, e, o);
    if LimitReason(cfg, e.budget, o.beginClock).None? && o.response.Some? {
      var blocks := o.response.value;
      var e1 := Say(cfg, BeginTurn(e), Message(Assistant, Blocks(blocks)));
      assert NoFatal(e1);
      AfterResponseFatal(cfg, e1, CallsOf(blocks), o);
    } else {
      assert f.journal.policies == e.journal.policies && f.journal.rollbacks == e.journal.rollbacks;
    }
  }

  lemma {:induction false} LoopFatal(cfg: Config, e: Engine, env: nat -> TurnOracle, k: nat)
    requires Running(cfg, e, k) && NoFatal(e)
    ensures var f := Loop(cfg, e, env, k).0;
      FatalOnlyIn(f, f.budget.turns) && (f.status == TaskSucceeded ==> NoFatal(f))
    decreases cfg.maxTurns - k
  {
    if k < cfg.maxTurns {
      TurnFatal(cfg, e, env(k));
      TurnLedger(cfg, e, env(k), k);
      if Turn(cfg, e, env(k)).1 == Continue {
        LoopFatal(cfg, Turn(cfg, e, env(k)).0, env, k + 1);
      }
    }
  }

  /**
   * A critical policy violation or a rollback that left a patch in place ends the
   * run at that completion: it fails, and no model call follows in it.
   */
  lemma FatalVerdictsEndTheRun(cfg: Config, files: Files, opening: Opening, env: nat -> TurnOracle)
    ensures var e := Run(cfg, files, opening, env).0;
      && FatalOnlyIn(e, |e.journal.models|)
      && (!NoFatal(e) ==> e.status == TaskFailed)
  {
    OpenedIsRunning(cfg, files, opening);
    LoopFatal(cfg, Opened(cfg, files, opening), env, 0);
    RunAccounting(cfg, files, opening, env);
    RunEndsOnce(cfg, files, opening, env);
  }
}
