// What one public run of the agent guarantees about the objects it leaves behind.
module AgentRun {
  import opened Text
  import opened Conversation
  import opened Exchanges
  import opened Wire
  import opened Patching
  import opened RunTypes
  import opened Planning
  import opened RunSpec
  import opened RunLedger
  import opened RunPlans
  import opened RunVerdicts
  import opened RunConversation
  import opened RunRollback
  import opened RunEnding
  import opened RunAnswers
  import opened Runtime

  /** One terminal event, and a success only for a reason. */
  ghost predicate EndedOnce(cfg: Config, e: Engine, out: Outcome)
  {
    && out != Continue && (out == Raised ==> e.status == TaskFailed)
    && e.status in {TaskSucceeded, TaskFailed}
    && e.journal.ends == [e.status == TaskSucceeded] && e.journal.closings == 1
    && (e.status == TaskSucceeded ==> Justified(cfg, e))
  }

  /** The counters agree with what happened and keep their limits. */
  ghost predicate Accounted(cfg: Config, e: Engine)
  {
    && Counted(cfg, e) && e.budget.turns <= MaxInt(0, cfg.maxTurns)
    && RetryCount(e.retries) <= MaxInt(0, cfg.maxRetries)
    && e.journal.verifications <= MaxInt(0, cfg.maxRetries) + 1
  }

  /** The plan is well formed, and complete exactly on success. */
  ghost predicate PlanAccounted(cfg: Config, e: Engine, out: Outcome)
  {
    cfg.planning ==>
      && e.plan.Some? && PlanOk(e.plan.value, RetryCount(e.retries))
      && (out == Returned ==> (e.status == TaskSucceeded <==> IsComplete(e.plan.value)))
  }

  /** Every rollback restored what its baseline says, in every workspace clean for it. */
  ghost predicate RollbacksAccounted(start: Files, e: Engine)
  {
    forall workspace: iset<Path>, i: nat | "" !in workspace && CleanRollback(workspace, e, i) ::
      RollbackTells(start, workspace, Earlier(e.journal.attempts, e.journal.rollbacks[i]), e.journal.rollbacks[i])
  }

  ghost predicate VerdictsAccounted(e: Engine)
  {
    && (AnyFailed(e) ==> e.status == TaskFailed)
    && FatalOnlyIn(e, |e.journal.models|) && (!NoFatal(e) ==> e.status == TaskFailed)
  }

  /** All that was sent is a window, and converts to a valid wire sequence. */
  ghost predicate SentWell(task: Message, env: nat -> TurnOracle, e: Engine)
  {
    Sent(task, e) && (Decodes(env) ==>
      forall i, system: string | 0 <= i < |e.journal.models| :: ValidWire(ToOpenAi(system, e.journal.models[i])))
  }

  /** Success and time-out exactly for their reasons, and no model call past the deadline. */
  ghost predicate EndedExactly(
      cfg: Config, start: Files, opening: Opening, env: nat -> TurnOracle, e: Engine)
  {
    && (e.status == TaskSucceeded <==> exists k :: SucceedsIn(cfg, start, opening, env, k))
    && (e.budget.exhausted == Some(MaxRunTime) <==> exists k :: TimesOutIn(cfg, start, opening, env, k))
    && (e.budget.exhausted == Some(MaxTurns) <==> Reaches(cfg, start, opening, env, TurnsOf(cfg)))
    && forall k: nat | k < |e.journal.models| :: OnTime(cfg, opening, env(k), k + 1 < |e.journal.models|)
  }

  /** Every exchange in a sent list is from an earlier turn. */
  ghost predicate SentHonestly(opening: Opening, env: nat -> TurnOracle, e: Engine)
  {
    forall i: nat | i < |e.journal.models| :: HonestWindow(TaskOf(opening), env, i, e.journal.models[i])
  }

  /** Everything proved of whole runs, for one run. */
  ghost predicate Guaranteed(
      cfg: Config, start: Files, opening: Opening, env: nat -> TurnOracle, e: Engine, out: Outcome)
  {
    && EndedOnce(cfg, e, out) && EndedExactly(cfg, start, opening, env, e) && Accounted(cfg, e)
    && PlanAccounted(cfg, e, out) && VerdictsAccounted(e)
    && SentHonestly(opening, env, e) && SentWell(Message(User, Plain(opening.task)), env, e)
    && ("" !in start ==> RollbacksAccounted(start, e))
  }

  lemma RunIsGuaranteed(cfg: Config, start: Files, opening: Opening, env: nat -> TurnOracle)
    ensures var (e, out) := Run(cfg, start, opening, env); Guaranteed(cfg, start, opening, env, e, out)
  {
    var (e, out) := Run(cfg, start, opening, env);
    RunEndsOnce(cfg, start, opening, env);
    RunAccounting(cfg, start, opening, env);
    if cfg.planning {
      PlanOfRun(cfg, start, opening, env);
    }
    PolicyFailureIsFinal(cfg, start, opening, env);
    FatalVerdictsEndTheRun(cfg, start, opening, env);
    RunEndsExactly(cfg, start, opening, env);
    RunSendsHonestly(cfg, start, opening, env);
    RunSendsOnlyWindows(cfg, start, opening, env);
    if "" !in start {
      forall workspace: iset<Path>, i: nat | "" !in workspace && CleanRollback(workspace, e, i)
        ensures RollbackTells(start, workspace, Earlier(e.journal.attempts, e.journal.rollbacks[i]), e.journal.rollbacks[i])
      {
        EveryRollbackRestoresStart(cfg, start, workspace, opening, env, i);
      }
    }
  }

  lemma RunEndsExactly(cfg: Config, start: Files, opening: Opening, env: nat -> TurnOracle)
    ensures EndedExactly(cfg, start, opening, env, Run(cfg, start, opening, env).0)
  {
    RunSucceedsExactly(cfg, start, opening, env);
    RunTimesOutExactly(cfg, start, opening, env);
    RunSpendsTurnsExactly(cfg, start, opening, env);
    forall k: nat | k < |Run(cfg, start, opening, env).0.journal.models|
      ensures OnTime(cfg, opening, env(k), k + 1 < |Run(cfg, start, opening, env).0.journal.models|)
    {
      RunKeepsDeadline(cfg, start, opening, env, k);
    }
  }

  lemma RunSendsHonestly(cfg: Config, start: Files, opening: Opening, env: nat -> TurnOracle)
    ensures SentHonestly(opening, env, Run(cfg, start, opening, env).0)
  {
    forall i: nat | i < |Run(cfg, start, opening, env).0.journal.models|
      ensures HonestWindow(TaskOf(opening), env, i, Run(cfg, start, opening, env).0.journal.models[i])
    {
      RunSendsWhatHappened(cfg, start, opening, env, i);
    }
  }

  lemma RunSendsOnlyWindows(cfg: Config, start: Files, opening: Opening, env: nat -> TurnOracle)
    ensures SentWell(Message(User, Plain(opening.task)), env, Run(cfg, start, opening, env).0)
  {
    var e := Run(cfg, start, opening, env).0;
    forall i | 0 <= i < |e.journal.models| ensures Window(Message(User, Plain(opening.task)), e.journal.models[i]) {
      RunSendsWindows(cfg, start, opening, env, i, 0);
    }
    if Decodes(env) {
      forall i, system: string | 0 <= i < |e.journal.models|
        ensures ValidWire(ToOpenAi(system, e.journal.models[i]))
      {
        RunSendsValidWire(cfg, start, opening, env, system, i);
      }
    }
  }

  class AgentLoop {
    const cfg: Config
    const fs: FileSystem

    constructor (cfg: Config, fs: FileSystem)
      ensures this.cfg == cfg && this.fs == fs
    {
      this.cfg, this.fs := cfg, fs;
    }

    /** A public run: a fresh session and controllers, then the coordinator. */
    method Run(opening: Opening, env: nat -> TurnOracle) returns (session: RunSession, out: Outcome)
      modifies fs
      ensures fresh(session) && session.cfg == cfg && session.fs == fs && session.Valid()
      ensures Guaranteed(cfg, old(fs.files), opening, env, session.View(), out)
      ensures |session.state.trajectory| == session.budget.toolCalls
      ensures out == Returned && cfg.planning ==>
        session.state.plan != null
        && (session.state.status == TaskSucceeded <==> AllDone(session.state.plan.steps))
    {
      ghost var start := fs.files;
      session := new RunSession(cfg, fs, opening.clock);
      var coordinator := new RunCoordinator(session);
      out := coordinator.Run(start, opening, env);
      RunIsGuaranteed(cfg, start, opening, env);
      if cfg.planning {
        StepsAndView(session.state.plan);
      }
    }
  }

  ghost predicate AllDone(steps: seq<PlanStep>)
    reads steps
  {
    steps != [] && forall s | s in steps :: s.status.Done?
  }

  lemma StepsAndView(plan: TaskPlan)
    ensures IsComplete(plan.View()) <==> AllDone(plan.steps)
  {
    assert forall i | 0 <= i < |plan.steps| :: plan.View()[i].status == plan.steps[i].status;
  }
}
