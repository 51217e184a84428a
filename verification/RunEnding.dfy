// How a run ends: which clock readings it goes past, which turn is its last, and what
// that turn must have been for the run to succeed, to time out, or to spend its turns.
module RunEnding {
  import opened Text
  import opened Conversation
  import opened Patching
  import opened RunTypes
  import opened RunSpec
  import opened RunLedger
  import opened RunOutcome

  // ---------------------------------------------------------------------
  // The two limits
  // ---------------------------------------------------------------------

  /** A cap is set, and the tool calls have come up to it. */
  predicate CapReached(cfg: Config, toolCalls: nat)
  {
    cfg.maxToolCalls.Some? && cfg.maxToolCalls.value <= toolCalls
  }

  /** A run time is set, and the clock has come up to its end. */
  predicate TimeUp(cfg: Config, startedAt: real, clock: real)
  {
    cfg.maxRunSeconds.Some?
    && (cfg.maxRunSeconds.value <= 0.0 || startedAt + cfg.maxRunSeconds.value <= clock)
  }

  /** Neither limit is reached at this reading. */
  predicate Within(cfg: Config, b: Budget, clock: real)
  {
    !CapReached(cfg, b.toolCalls) && !TimeUp(cfg, b.startedAt, clock)
  }

  /** The cap is reported before the time. */
  function LimitAt(cfg: Config, b: Budget, clock: real): Option<Reason>
  {
    if CapReached(cfg, b.toolCalls) then Some(MaxToolCalls)
    else if TimeUp(cfg, b.startedAt, clock) then Some(MaxRunTime)
    else None
  }

  /** Each limit is reported exactly when it is reached. */
  lemma LimitExactly(cfg: Config, b: Budget, clock: real)
    ensures LimitReason(cfg, b, clock) == LimitAt(cfg, b, clock)
  {
  }

  // ---------------------------------------------------------------------
  // One turn
  // ---------------------------------------------------------------------

  /** The state in which a response is acted on. */
  function Responded(cfg: Config, e: Engine, blocks: seq<Block>): Engine
  {
    Say(cfg, BeginTurn(e), Message(Assistant, Blocks(blocks)))
  }

  /** The turn comes to a response within the limits. */
  predicate Responds(cfg: Config, e: Engine, o: TurnOracle)
  {
    Within(cfg, e.budget, o.beginClock) && o.response.Some? && Within(cfg, e.budget, o.responseClock)
  }

  /** The response is a batch of tool calls, and the limits hold after it. */
  predicate Works(cfg: Config, e: Engine, o: TurnOracle)
  {
    Responds(cfg, e, o)
    && var calls := CallsOf(o.response.value);
       calls != [] && Within(cfg, e.budget.(toolCalls := e.budget.toolCalls + |calls|), o.toolsClock)
  }

  predicate Completes(cfg: Config, e: Engine, o: TurnOracle)
  {
    Responds(cfg, e, o) && CallsOf(o.response.value) == []
  }

  /** The response is final, and verifier and policy accept the work. */
  ghost predicate TurnSucceeds(cfg: Config, e: Engine, o: TurnOracle)
  {
    Completes(cfg, e, o) && Succeeds(cfg, e, o.completion)
  }

  /** The response is final, the work is not accepted, and a retry follows. */
  ghost predicate TurnRetries(cfg: Config, e: Engine, o: TurnOracle)
  {
    Completes(cfg, e, o) && Retries(cfg, Responded(cfg, e, o.response.value), o.completion)
  }

  /** A limit is reached at one of the three checks of the turn. */
  predicate Stopped(cfg: Config, e: Engine, o: TurnOracle)
  {
    || !Within(cfg, e.budget, o.beginClock)
    || (o.response.Some? && (!Within(cfg, e.budget, o.responseClock)
         || (CallsOf(o.response.value) != [] && !Works(cfg, e, o))))
  }

  /** The turn is over its time at one of the checks that come before any cap. */
  predicate Late(cfg: Config, e: Engine, o: TurnOracle)
  {
    && !CapReached(cfg, e.budget.toolCalls)
    && (|| TimeUp(cfg, e.budget.startedAt, o.beginClock)
        || (o.response.Some?
            && (|| TimeUp(cfg, e.budget.startedAt, o.responseClock)
                || (CallsOf(o.response.value) != []
                    && !CapReached(cfg, e.budget.toolCalls + |CallsOf(o.response.value)|)
                    && TimeUp(cfg, e.budget.startedAt, o.toolsClock)))))
  }

  lemma RespondedFrame(cfg: Config, e: Engine, blocks: seq<Block>)
    ensures var f := Responded(cfg, e, blocks);
      && f.status == e.status && f.trajectory == e.trajectory && f.retries == e.retries
      && f.budget == e.budget.(turns := e.budget.turns + 1)
  {
  }

  lemma AfterBatchBudget(cfg: Config, e: Engine, calls: seq<Call>, tools: nat -> ToolOracle)
    ensures var f := AfterBatch(cfg, e, calls, tools);
      f.status == e.status && f.budget == e.budget.(toolCalls := e.budget.toolCalls + |calls|)
  {
    ToolsFrame(cfg, e, calls, tools, |calls|);
  }

  /** What the limit checks after a response make of it. */
  lemma AfterResponseExactly(cfg: Config, e: Engine, calls: seq<Call>, o: TurnOracle)
    requires e.status == TaskRunning && e.budget.exhausted.None?
    ensures var (f, out) := AfterResponse(cfg, e, calls, o);
      var reason := LimitReason(cfg, e.budget, o.responseClock);
      var spent := LimitReason(cfg, e.budget.(toolCalls := e.budget.toolCalls + |calls|), o.toolsClock);
      && out != Raised
      && (f.status == TaskSucceeded <==> reason.None? && calls == [] && Succeeds(cfg, e, o.completion))
      && (out == Continue <==> reason.None? && if calls == [] then Retries(cfg, e, o.completion) else spent.None?)
      && f.budget.exhausted == (if reason.Some? then reason else if calls == [] then None else spent)
  {
    if calls == [] {
      CompletionExactly(cfg, e, o.completion);
      CompleteShape(cfg, e, o.completion);
    } else {
      AfterBatchBudget(cfg, e, calls, o.tools);
    }
  }

  /** What a turn came to, by its clock readings, its response and its verdict. */
  ghost predicate TurnOutcome(cfg: Config, e: Engine, o: TurnOracle, f: Engine, out: Outcome)
  {
    && (f.status == TaskSucceeded <==> TurnSucceeds(cfg, e, o))
    && (out == Continue <==> Works(cfg, e, o) || TurnRetries(cfg, e, o))
    && (out == Raised <==> Within(cfg, e.budget, o.beginClock) && o.response.None?)
    && (f.budget.exhausted.Some? <==> Stopped(cfg, e, o))
    && (f.budget.exhausted == Some(MaxRunTime) <==> Late(cfg, e, o))
    && f.budget.exhausted != Some(MaxTurns)
  }

  lemma BeginsLate(cfg: Config, e: Engine, o: TurnOracle)
    requires e.status == TaskRunning && e.budget.exhausted.None? && !Within(cfg, e.budget, o.beginClock)
    ensures TurnOutcome(cfg, e, o, Turn(cfg, e, o).0, Turn(cfg, e, o).1)
  {
    LimitExactly(cfg, e.budget, o.beginClock);
  }

  lemma ProviderFails(cfg: Config, e: Engine, o: TurnOracle)
    requires e.status == TaskRunning && e.budget.exhausted.None?
    requires Within(cfg, e.budget, o.beginClock) && o.response.None?
    ensures TurnOutcome(cfg, e, o, Turn(cfg, e, o).0, Turn(cfg, e, o).1)
  {
    LimitExactly(cfg, e.budget, o.beginClock);
  }

  lemma ResponseOutcome(cfg: Config, e: Engine, o: TurnOracle, f: Engine, out: Outcome)
    requires Within(cfg, e.budget, o.beginClock) && o.response.Some?
    requires (f, out) == AfterResponse(cfg, Responded(cfg, e, o.response.value), CallsOf(o.response.value), o)
    requires e.status == TaskRunning && e.budget.exhausted.None?
    ensures TurnOutcome(cfg, e, o, f, out)
  {
    var calls, e1 := CallsOf(o.response.value), Responded(cfg, e, o.response.value);
    RespondedFrame(cfg, e, o.response.value);
    AfterResponseExactly(cfg, e1, calls, o);
    LimitExactly(cfg, e1.budget, o.responseClock);
    LimitExactly(cfg, e1.budget.(toolCalls := e1.budget.toolCalls + |calls|), o.toolsClock);
    assert Succeeds(cfg, e1, o.completion) == Succeeds(cfg, e, o.completion);
  }

  lemma TurnResponds(cfg: Config, e: Engine, o: TurnOracle)
    requires Within(cfg, e.budget, o.beginClock) && o.response.Some?
    ensures Turn(cfg, e, o)
      == AfterResponse(cfg, Responded(cfg, e, o.response.value), CallsOf(o.response.value), o)
  {
    LimitExactly(cfg, e.budget, o.beginClock);
  }

  /** Every turn of a running task comes to exactly that. */
  lemma TurnExactly(cfg: Config, e: Engine, o: TurnOracle)
    requires e.status == TaskRunning && e.budget.exhausted.None?
    ensures TurnOutcome(cfg, e, o, Turn(cfg, e, o).0, Turn(cfg, e, o).1)
  {
    if !Within(cfg, e.budget, o.beginClock) {
      BeginsLate(cfg, e, o);
    } else if o.response.None? {
      ProviderFails(cfg, e, o);
    } else {
      TurnResponds(cfg, e, o);
      ResponseOutcome(cfg, e, o, Turn(cfg, e, o).0, Turn(cfg, e, o).1);
    }
  }

  // ---------------------------------------------------------------------
  // Whole runs
  // ---------------------------------------------------------------------

  /** The k-th state of a process that may stop. */
  function Iterate<S>(s: S, step: (S, nat) -> Option<S>, k: nat): Option<S>
  {
    if k == 0 then Some(s)
    else
      match Iterate(s, step, k - 1)
      case None => None
      case Some(t) => step(t, k - 1)
  }

  lemma {:induction false} IterateBefore<S>(s: S, step: (S, nat) -> Option<S>, k: nat, n: nat)
    requires k <= n && Iterate(s, step, n).Some?
    ensures Iterate(s, step, k).Some?
    ensures k < n ==> Iterate(s, step, k + 1).Some?
    decreases n - k
  {
    if k < n {
      IterateBefore(s, step, k + 1, n);
    }
  }

  lemma {:induction false} IterateInvariant<S(!new)>(
      s: S, step: (S, nat) -> Option<S>, inv: (S, nat) -> bool, k: nat)
    requires inv(s, 0)
    requires forall t: S, i: nat | inv(t, i) && step(t, i).Some? :: inv(step(t, i).value, i + 1)
    requires Iterate(s, step, k).Some?
    ensures inv(Iterate(s, step, k).value, k)
  {
    if k > 0 {
      IterateInvariant(s, step, inv, k - 1);
    }
  }

  lemma {:induction false} LastIterate<S>(s: S, step: (S, nat) -> Option<S>, limit: nat, k: nat) returns (n: nat)
    requires k <= limit && Iterate(s, step, k).Some?
    ensures k <= n <= limit && Iterate(s, step, n).Some?
    ensures n < limit ==> Iterate(s, step, n + 1).None?
    decreases limit - k
  {
    if k < limit && Iterate(s, step, k + 1).Some? {
      n := LastIterate(s, step, limit, k + 1);
    } else {
      n := k;
    }
  }

  ghost function AfterTurn(cfg: Config, e: Engine, o: TurnOracle): Option<Engine>
  {
    var (f, out) := Turn(cfg, e, o);
    if out == Continue then Some(f) else None
  }

  ghost function Turns(cfg: Config, env: nat -> TurnOracle): (Engine, nat) -> Option<Engine>
  {
    (e: Engine, k: nat) => AfterTurn(cfg, e, env(k))
  }

  /** The state before turn k, if every turn before it went on. */
  ghost function StateBefore(cfg: Config, start: Files, opening: Opening, env: nat -> TurnOracle, k: nat): Option<Engine>
  {
    Iterate(Opened(cfg, start, opening), Turns(cfg, env), k)
  }

  ghost predicate Reaches(cfg: Config, start: Files, opening: Opening, env: nat -> TurnOracle, k: nat)
  {
    StateBefore(cfg, start, opening, env, k).Some?
  }

  /** How many turns a run may have. */
  function TurnsOf(cfg: Config): nat { if cfg.maxTurns <= 0 then 0 else cfg.maxTurns }

  lemma StateStep(cfg: Config, start: Files, opening: Opening, env: nat -> TurnOracle, k: nat)
    requires Reaches(cfg, start, opening, env, k)
    ensures StateBefore(cfg, start, opening, env, k + 1)
         == AfterTurn(cfg, StateBefore(cfg, start, opening, env, k).value, env(k))
  {
  }

  /** What holds of the state before every turn a run reaches. */
  ghost predicate Underway(cfg: Config, opening: Opening, e: Engine, k: nat)
  {
    Running(cfg, e, k) && e.budget.startedAt == opening.clock
  }

  lemma OpenedUnderway(cfg: Config, start: Files, opening: Opening)
    ensures Underway(cfg, opening, Opened(cfg, start, opening), 0)
  {
    OpenedIsRunning(cfg, start, opening);
  }

  lemma TurnUnderway(cfg: Config, opening: Opening, e: Engine, o: TurnOracle, k: nat)
    requires Underway(cfg, opening, e, k) && AfterTurn(cfg, e, o).Some?
    ensures Underway(cfg, opening, AfterTurn(cfg, e, o).value, k + 1)
  {
    TurnLedger(cfg, e, o, k);
    TurnKeepsClock(cfg, e, o);
  }

  lemma ReachedIsUnderway(cfg: Config, start: Files, opening: Opening, env: nat -> TurnOracle, k: nat)
    requires Reaches(cfg, start, opening, env, k)
    ensures Underway(cfg, opening, StateBefore(cfg, start, opening, env, k).value, k)
  {
    var inv := (e: Engine, i: nat) => Underway(cfg, opening, e, i);
    OpenedUnderway(cfg, start, opening);
    forall e: Engine, i: nat | inv(e, i) && Turns(cfg, env)(e, i).Some?
      ensures inv(Turns(cfg, env)(e, i).value, i + 1)
    {
      TurnUnderway(cfg, opening, e, env(i), i);
    }
    IterateInvariant(Opened(cfg, start, opening), Turns(cfg, env), inv, k);
  }

  lemma TurnKeepsClock(cfg: Config, e: Engine, o: TurnOracle)
    requires e.status == TaskRunning
    ensures Turn(cfg, e, o).0.budget.startedAt == e.budget.startedAt
  {
    if Within(cfg, e.budget, o.beginClock) && o.response.Some? {
      TurnResponds(cfg, e, o);
      RespondedFrame(cfg, e, o.response.value);
      AfterResponseClock(cfg, Responded(cfg, e, o.response.value), CallsOf(o.response.value), o);
    } else {
      LimitExactly(cfg, e.budget, o.beginClock);
    }
  }

  lemma AfterResponseClock(cfg: Config, e: Engine, calls: seq<Call>, o: TurnOracle)
    requires e.status == TaskRunning
    ensures AfterResponse(cfg, e, calls, o).0.budget.startedAt == e.budget.startedAt
  {
    if calls == [] {
      CompleteShape(cfg, e, o.completion);
    } else {
      AfterBatchBudget(cfg, e, calls, o.tools);
    }
  }

  lemma LoopStep(cfg: Config, e: Engine, env: nat -> TurnOracle, k: nat)
    requires k < cfg.maxTurns
    ensures var after := AfterTurn(cfg, e, env(k));
      Loop(cfg, e, env, k) == if after.Some? then Loop(cfg, after.value, env, k + 1) else Turn(cfg, e, env(k))
  {
  }

  ghost predicate LoopIs(cfg: Config, env: nat -> TurnOracle, whole: (Engine, Outcome), e: Engine, k: nat)
  {
    k > TurnsOf(cfg) || Loop(cfg, e, env, k) == whole
  }

  lemma LoopStays(cfg: Config, env: nat -> TurnOracle, whole: (Engine, Outcome), e: Engine, k: nat)
    requires LoopIs(cfg, env, whole, e, k) && AfterTurn(cfg, e, env(k)).Some?
    ensures LoopIs(cfg, env, whole, AfterTurn(cfg, e, env(k)).value, k + 1)
  {
    if k < TurnsOf(cfg) {
      LoopStep(cfg, e, env, k);
    }
  }

  lemma LoopFromReached(
      cfg: Config, start: Files, opening: Opening, env: nat -> TurnOracle, k: nat, whole: (Engine, Outcome))
    requires LoopIs(cfg, env, whole, Opened(cfg, start, opening), 0) && Reaches(cfg, start, opening, env, k)
    ensures LoopIs(cfg, env, whole, StateBefore(cfg, start, opening, env, k).value, k)
  {
    var inv := (e: Engine, i: nat) => LoopIs(cfg, env, whole, e, i);
    forall e: Engine, i: nat | inv(e, i) && Turns(cfg, env)(e, i).Some?
      ensures inv(Turns(cfg, env)(e, i).value, i + 1)
    {
      LoopStays(cfg, env, whole, e, i);
    }
    IterateInvariant(Opened(cfg, start, opening), Turns(cfg, env), inv, k);
  }

  /** Turn n is the last of the run, or the run has spent its turns. */
  ghost predicate EndsIn(cfg: Config, start: Files, opening: Opening, env: nat -> TurnOracle, n: nat)
  {
    && n <= TurnsOf(cfg) && Reaches(cfg, start, opening, env, n)
    && (n < TurnsOf(cfg) ==> !Reaches(cfg, start, opening, env, n + 1))
  }

  /** Every run ends in some turn. */
  lemma RunEndsSomewhere(cfg: Config, start: Files, opening: Opening, env: nat -> TurnOracle) returns (n: nat)
    ensures EndsIn(cfg, start, opening, env, n)
  {
    n := LastIterate(Opened(cfg, start, opening), Turns(cfg, env), TurnsOf(cfg), 0);
  }

  /** What a run that ends in turn n hands back. */
  ghost function EndState(cfg: Config, e: Engine, env: nat -> TurnOracle, n: nat): (Engine, Outcome)
  {
    if n < TurnsOf(cfg) then Turn(cfg, e, env(n)) else (TurnsSpent(cfg, e), Returned)
  }

  lemma RunEndState(cfg: Config, start: Files, opening: Opening, env: nat -> TurnOracle, n: nat)
    requires EndsIn(cfg, start, opening, env, n)
    ensures var (e, out) := EndState(cfg, StateBefore(cfg, start, opening, env, n).value, env, n);
      Run(cfg, start, opening, env) == (Close(e), out)
  {
    LoopFromReached(cfg, start, opening, env, n, Loop(cfg, Opened(cfg, start, opening), env, 0));
    var e := StateBefore(cfg, start, opening, env, n).value;
    if n < TurnsOf(cfg) {
      StateStep(cfg, start, opening, env, n);
      LoopStep(cfg, e, env, n);
    }
  }

  /** What the last turn of a run, or the end of its turns, makes of its outcome. */
  ghost predicate EndTells(
      cfg: Config, e: Engine, o: TurnOracle, spent: bool, status: TaskStatus, exhausted: Option<Reason>, out: Outcome)
  {
    if spent then status == TaskFailed && exhausted == Some(MaxTurns) && out == Returned
    else
      && (status == TaskSucceeded <==> TurnSucceeds(cfg, e, o))
      && (exhausted.Some? <==> Stopped(cfg, e, o))
      && (exhausted == Some(MaxRunTime) <==> Late(cfg, e, o))
      && exhausted != Some(MaxTurns)
      && (out == Raised <==> Within(cfg, e.budget, o.beginClock) && o.response.None?)
  }

  lemma EndStateTells(cfg: Config, e: Engine, env: nat -> TurnOracle, n: nat)
    requires e.status == TaskRunning && e.budget.exhausted.None?
    ensures var (f, out) := EndState(cfg, e, env, n);
      EndTells(cfg, e, env(n), n >= TurnsOf(cfg), f.status, f.budget.exhausted, out)
  {
    if n < TurnsOf(cfg) {
      TurnExactly(cfg, e, env(n));
    }
  }

  lemma RunTells(cfg: Config, start: Files, opening: Opening, env: nat -> TurnOracle, n: nat)
    requires EndsIn(cfg, start, opening, env, n)
    ensures var (f, out) := Run(cfg, start, opening, env);
      EndTells(cfg, StateBefore(cfg, start, opening, env, n).value, env(n), n >= TurnsOf(cfg),
               f.status, f.budget.exhausted, out)
  {
    ReachedIsUnderway(cfg, start, opening, env, n);
    RunEndState(cfg, start, opening, env, n);
    EndStateTells(cfg, StateBefore(cfg, start, opening, env, n).value, env, n);
  }

  /** A turn that does not go on is the last. */
  lemma StopsHere(cfg: Config, start: Files, opening: Opening, env: nat -> TurnOracle, k: nat)
    requires k < TurnsOf(cfg) && Reaches(cfg, start, opening, env, k)
    requires var e := StateBefore(cfg, start, opening, env, k).value;
      !Works(cfg, e, env(k)) && !TurnRetries(cfg, e, env(k))
    ensures EndsIn(cfg, start, opening, env, k)
  {
    ReachedIsUnderway(cfg, start, opening, env, k);
    TurnExactly(cfg, StateBefore(cfg, start, opening, env, k).value, env(k));
    StateStep(cfg, start, opening, env, k);
  }

  ghost predicate SucceedsIn(cfg: Config, start: Files, opening: Opening, env: nat -> TurnOracle, k: nat)
  {
    && k < TurnsOf(cfg) && Reaches(cfg, start, opening, env, k)
    && TurnSucceeds(cfg, StateBefore(cfg, start, opening, env, k).value, env(k))
  }

  /**
   * A run succeeds if and only if it comes to a turn, within both limits, whose response
   * is final, whose verification did not fail, and at which no patch limit is breached.
   */
  lemma RunSucceedsExactly(cfg: Config, start: Files, opening: Opening, env: nat -> TurnOracle)
    ensures Run(cfg, start, opening, env).0.status == TaskSucceeded
      <==> exists k :: SucceedsIn(cfg, start, opening, env, k)
  {
    if k :| SucceedsIn(cfg, start, opening, env, k) {
      var e := StateBefore(cfg, start, opening, env, k).value;
      SuccessStops(cfg, e, env(k));
      StopsHere(cfg, start, opening, env, k);
      RunTells(cfg, start, opening, env, k);
    } else {
      var n := RunEndsSomewhere(cfg, start, opening, env);
      RunTells(cfg, start, opening, env, n);
      assert !SucceedsIn(cfg, start, opening, env, n);
    }
  }

  lemma SuccessStops(cfg: Config, e: Engine, o: TurnOracle)
    requires TurnSucceeds(cfg, e, o)
    ensures !Works(cfg, e, o) && !TurnRetries(cfg, e, o)
  {
  }

  lemma LateStops(cfg: Config, e: Engine, o: TurnOracle)
    requires Late(cfg, e, o)
    ensures !Works(cfg, e, o) && !TurnRetries(cfg, e, o)
  {
  }

  ghost predicate TimesOutIn(cfg: Config, start: Files, opening: Opening, env: nat -> TurnOracle, k: nat)
  {
    && k < TurnsOf(cfg) && Reaches(cfg, start, opening, env, k)
    && Late(cfg, StateBefore(cfg, start, opening, env, k).value, env(k))
  }

  /** A run is stopped for its time exactly if one of its clock readings is past the deadline, no cap being reached. */
  lemma RunTimesOutExactly(cfg: Config, start: Files, opening: Opening, env: nat -> TurnOracle)
    ensures Run(cfg, start, opening, env).0.budget.exhausted == Some(MaxRunTime)
      <==> exists k :: TimesOutIn(cfg, start, opening, env, k)
  {
    if k :| TimesOutIn(cfg, start, opening, env, k) {
      LateStops(cfg, StateBefore(cfg, start, opening, env, k).value, env(k));
      StopsHere(cfg, start, opening, env, k);
      RunTells(cfg, start, opening, env, k);
    } else {
      var n := RunEndsSomewhere(cfg, start, opening, env);
      RunTells(cfg, start, opening, env, n);
      assert !TimesOutIn(cfg, start, opening, env, n);
    }
  }

  /** A run is stopped for its turns exactly if every turn it may have went on. */
  lemma RunSpendsTurnsExactly(cfg: Config, start: Files, opening: Opening, env: nat -> TurnOracle)
    ensures Run(cfg, start, opening, env).0.budget.exhausted == Some(MaxTurns)
      <==> Reaches(cfg, start, opening, env, TurnsOf(cfg))
  {
    var n := RunEndsSomewhere(cfg, start, opening, env);
    RunTells(cfg, start, opening, env, n);
    if Reaches(cfg, start, opening, env, TurnsOf(cfg)) && n < TurnsOf(cfg) {
      IterateBefore(Opened(cfg, start, opening), Turns(cfg, env), n + 1, TurnsOf(cfg));
    }
  }

  // ---------------------------------------------------------------------
  // Model calls and the deadline
  // ---------------------------------------------------------------------

  lemma AfterResponseTurns(cfg: Config, e: Engine, calls: seq<Call>, o: TurnOracle)
    requires e.status == TaskRunning
    ensures AfterResponse(cfg, e, calls, o).0.budget.turns == e.budget.turns
  {
    if calls == [] {
      CompleteShape(cfg, e, o.completion);
    } else {
      AfterBatchBudget(cfg, e, calls, o.tools);
    }
  }

  /** A turn counts, and calls the model, exactly if it begins within the limits. */
  lemma TurnCounts(cfg: Config, e: Engine, o: TurnOracle)
    requires e.status == TaskRunning
    ensures Turn(cfg, e, o).0.budget.turns == e.budget.turns + if Within(cfg, e.budget, o.beginClock) then 1 else 0
  {
    LimitExactly(cfg, e.budget, o.beginClock);
    if Within(cfg, e.budget, o.beginClock) && o.response.Some? {
      TurnResponds(cfg, e, o);
      RespondedFrame(cfg, e, o.response.value);
      AfterResponseTurns(cfg, Responded(cfg, e, o.response.value), CallsOf(o.response.value), o);
    }
  }

  lemma EndStateTurns(cfg: Config, e: Engine, env: nat -> TurnOracle, n: nat)
    requires Running(cfg, e, n)
    ensures EndState(cfg, e, env, n).0.budget.turns
      == n + if n < TurnsOf(cfg) && Within(cfg, e.budget, env(n).beginClock) then 1 else 0
  {
    if n < TurnsOf(cfg) {
      TurnCounts(cfg, e, env(n));
    }
  }

  /** That many calls were recorded by a run that ends in turn n. */
  ghost predicate Called(
      cfg: Config, start: Files, opening: Opening, env: nat -> TurnOracle, n: nat, calls: nat)
  {
    && EndsIn(cfg, start, opening, env, n)
    && calls == n + if n < TurnsOf(cfg)
         && Within(cfg, StateBefore(cfg, start, opening, env, n).value.budget, env(n).beginClock) then 1 else 0
  }

  lemma ModelCalls(cfg: Config, start: Files, opening: Opening, env: nat -> TurnOracle) returns (n: nat)
    ensures Called(cfg, start, opening, env, n, |Run(cfg, start, opening, env).0.journal.models|)
  {
    n := RunEndsSomewhere(cfg, start, opening, env);
    RunAccounting(cfg, start, opening, env);
    ReachedIsUnderway(cfg, start, opening, env, n);
    RunEndState(cfg, start, opening, env, n);
    EndStateTurns(cfg, StateBefore(cfg, start, opening, env, n).value, env, n);
  }

  /** Turn k went on, so each of its readings was within the limits. */
  lemma WentOn(cfg: Config, start: Files, opening: Opening, env: nat -> TurnOracle, k: nat, n: nat)
    requires k < n && Reaches(cfg, start, opening, env, n)
    ensures Reaches(cfg, start, opening, env, k)
    ensures var e := StateBefore(cfg, start, opening, env, k).value;
      Works(cfg, e, env(k)) || TurnRetries(cfg, e, env(k))
  {
    IterateBefore(Opened(cfg, start, opening), Turns(cfg, env), k, n);
    ReachedIsUnderway(cfg, start, opening, env, k);
    StateStep(cfg, start, opening, env, k);
    TurnExactly(cfg, StateBefore(cfg, start, opening, env, k).value, env(k));
  }

  /** The readings of a turn that called the model, and, if it went on, all its readings. */
  ghost predicate OnTime(cfg: Config, opening: Opening, o: TurnOracle, wentOn: bool)
  {
    && !TimeUp(cfg, opening.clock, o.beginClock)
    && (wentOn ==>
          && o.response.Some? && !TimeUp(cfg, opening.clock, o.responseClock)
          && (CallsOf(o.response.value) != [] ==> !TimeUp(cfg, opening.clock, o.toolsClock)))
  }

  lemma WentOnInTime(cfg: Config, start: Files, opening: Opening, env: nat -> TurnOracle, k: nat, n: nat)
    requires k < n && Reaches(cfg, start, opening, env, n)
    ensures OnTime(cfg, opening, env(k), true)
  {
    WentOn(cfg, start, opening, env, k, n);
    ReachedIsUnderway(cfg, start, opening, env, k);
  }

  lemma LastInTime(cfg: Config, start: Files, opening: Opening, env: nat -> TurnOracle, n: nat)
    requires Reaches(cfg, start, opening, env, n)
    requires Within(cfg, StateBefore(cfg, start, opening, env, n).value.budget, env(n).beginClock)
    ensures OnTime(cfg, opening, env(n), false)
  {
    ReachedIsUnderway(cfg, start, opening, env, n);
  }

  lemma CalledInTime(
      cfg: Config, start: Files, opening: Opening, env: nat -> TurnOracle, n: nat, calls: nat, k: nat)
    requires Called(cfg, start, opening, env, n, calls) && k < calls
    ensures OnTime(cfg, opening, env(k), k + 1 < calls)
  {
    if k < n {
      WentOnInTime(cfg, start, opening, env, k, n);
    } else {
      LastInTime(cfg, start, opening, env, n);
    }
  }

  /**
   * No model call of a run is recorded at or past the deadline; and behind every call
   * but the last, neither was the reading after its response, nor the one after its tools.
   */
  lemma RunKeepsDeadline(cfg: Config, start: Files, opening: Opening, env: nat -> TurnOracle, k: nat)
    requires k < |Run(cfg, start, opening, env).0.journal.models|
    ensures OnTime(cfg, opening, env(k), k + 1 < |Run(cfg, start, opening, env).0.journal.models|)
  {
    var n := ModelCalls(cfg, start, opening, env);
    CalledInTime(cfg, start, opening, env, n, |Run(cfg, start, opening, env).0.journal.models|, k);
  }
}
