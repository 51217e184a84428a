// A run on the failing side of the rollback boundary: its rollback reports no failure,
// and a file the run made is still there.
module StrayRun {
  import opened Text
  import opened Conversation
  import opened Patching
  import opened FileTools
  import opened RunTypes
  import opened RunSpec
  import opened RunLedger
  import opened RunEnding
  import opened RunRollback

  /** No limit but that on turns, no retries, and a rollback of failed verifications. */
  predicate RollsBackOnce(cfg: Config)
  {
    cfg.maxTurns >= 2 && cfg.maxToolCalls.None? && cfg.maxRunSeconds.None? && cfg.maxRetries <= 0 && cfg.autoRollback
  }

  /** The response of the turn is one write to the path. */
  ghost predicate Writes(o: TurnOracle, path: Path)
  {
    && o.response.Some? && |CallsOf(o.response.value)| == 1
    && CallsOf(o.response.value)[0].name == "write_file" && "path" in CallsOf(o.response.value)[0].input
    && !o.tools(0).blocked && o.tools(0).gate == Some(path)
  }

  /** The response of the turn is final, and the verification fails. */
  predicate FailsVerification(o: TurnOracle)
  {
    && o.response.Some? && CallsOf(o.response.value) == []
    && o.completion.verdict.Some? && o.completion.verdict.value.status.CheckFailed?
  }

  /** A write to a new path that fails and leaves the file, then a failed verification. */
  ghost predicate StraysOnce(cfg: Config, start: Files, path: Path, env: nat -> TurnOracle)
  {
    && RollsBackOnce(cfg) && Writes(env(0), path) && FailsVerification(env(1))
    && StrandsNew(env(0).tools(0).io.io)
    && path !in start && "" !in start
    && TempPath(path, env(0).tools(0).io.id) !in start
  }

  /** The transaction of the write. */
  ghost function WriteOutcome(start: Files, path: Path, o: TurnOracle): ToolOutcome
    requires Writes(o, path)
  {
    Transact(start, path, Get(CallsOf(o.response.value)[0].input, "content"), o.tools(0).io)
  }

  /** What the trajectory keeps of it. */
  ghost function WriteStep(path: Path, o: TurnOracle): Step
    requires Writes(o, path)
  {
    var call := CallsOf(o.response.value)[0];
    Step(call.name, call.input, true, None)
  }

  lemma WriteIsStray(start: Files, path: Path, o: TurnOracle)
    requires Writes(o, path) && StrandsNew(o.tools(0).io.io)
    requires path !in start && "" !in start && TempPath(path, o.tools(0).io.id) !in start
    ensures var t := WriteOutcome(start, path, o);
      && t.patch.None? && t.attempt.Some? && path in t.files
      && t.attempt.value.Stray() && t.attempt.value.path == path
      && Clean(t.attempt.value, iset{path})
  {
    var io := o.tools(0).io;
    var after := Get(CallsOf(o.response.value)[0].input, "content");
    var c := ChangeFor(start, path, after, io.root, io.id);
    TempNameIsNew(path, io.id);
    FailsExactly(c, start, io.io);
    NewTargetExactly(c, start, io.io);
    assert TempPath(path, io.id) != "";
  }

  // ---------------------------------------------------------------------
  // The two turns
  // ---------------------------------------------------------------------

  lemma Unlimited(cfg: Config, b: Budget, clock: real)
    requires RollsBackOnce(cfg)
    ensures LimitReason(cfg, b, clock) == None
  {
  }

  lemma BatchOfOne(cfg: Config, e: Engine, call: Call, tools: nat -> ToolOracle)
    ensures SliceOf(AfterBatch(cfg, e, [call], tools)) == SliceOf(OneTool(cfg, e, call, tools(0)))
  {
    assert ToolsAfter(cfg, e, [call], tools, 0).0 == e;
    assert ToolsAfter(cfg, e, [call], tools, 1).0 == OneTool(cfg, e, call, tools(0));
  }

  lemma WriteObserves(start: Files, path: Path, o: TurnOracle)
    requires Writes(o, path) && path !in start
    ensures Execute(start, CallsOf(o.response.value)[0], o.tools(0)) == Observe(WriteOutcome(start, path, o))
  {
  }

  lemma WriteBatch(cfg: Config, start: Files, path: Path, e: Engine, o: TurnOracle)
    requires Writes(o, path) && StrandsNew(o.tools(0).io.io)
    requires path !in start && "" !in start && TempPath(path, o.tools(0).io.id) !in start
    requires SliceOf(e) == Slice([], start, [], [], 1)
    ensures var t := WriteOutcome(start, path, o);
      SliceOf(AfterBatch(cfg, e, CallsOf(o.response.value), o.tools))
        == Slice([t.attempt.value], t.files, [WriteStep(path, o)], [], 1)
  {
    var call := CallsOf(o.response.value)[0];
    assert CallsOf(o.response.value) == [call];
    BatchOfOne(cfg, e, call, o.tools);
    OneToolEffect(cfg, e, call, o.tools(0));
    WriteObserves(start, path, o);
    WriteIsStray(start, path, o);
  }

  lemma WriteTurn(cfg: Config, start: Files, path: Path, e: Engine, o: TurnOracle)
    requires RollsBackOnce(cfg) && Writes(o, path) && StrandsNew(o.tools(0).io.io)
    requires path !in start && "" !in start && TempPath(path, o.tools(0).io.id) !in start
    requires SliceOf(e) == Slice([], start, [], [], 0)
    ensures var (f, out) := Turn(cfg, e, o);
      var t := WriteOutcome(start, path, o);
      out == Continue && SliceOf(f) == Slice([t.attempt.value], t.files, [WriteStep(path, o)], [], 1)
  {
    var e1 := Say(cfg, BeginTurn(e), Message(Assistant, Blocks(o.response.value)));
    var calls := CallsOf(o.response.value);
    Unlimited(cfg, e.budget, o.beginClock);
    Unlimited(cfg, e1.budget, o.responseClock);
    Unlimited(cfg, AfterBatch(cfg, e1, calls, o.tools).budget, o.toolsClock);
    assert SliceOf(e1) == Slice([], start, [], [], 1);
    WriteBatch(cfg, start, path, e1, o);
    assert Turn(cfg, e, o) == AfterResponse(cfg, e1, calls, o);
  }

  lemma FailedCompletion(cfg: Config, e: Engine, o: CompletionOracle)
    requires RollsBackOnce(cfg) && e.status == TaskRunning && PatchesOf(e.trajectory) == []
    requires o.verdict.Some? && o.verdict.value.status.CheckFailed?
    ensures var (f, done) := Complete(cfg, e, o);
      var r := Rollback(e.budget.turns, |e.journal.attempts|, true, e.files, RollbackReport(0, 0, 0));
      done && SliceOf(f) == SliceOf(e).(rollbacks := e.journal.rollbacks + [r])
  {
    CompleteSlice(cfg, e, o);
    assert RollbackAll(e.files, [], o.restore) == (e.files, []);
  }

  lemma RespondedSlice(cfg: Config, e: Engine, blocks: seq<Block>)
    ensures SliceOf(Responded(cfg, e, blocks)) == SliceOf(e).(turns := e.budget.turns + 1)
    ensures Responded(cfg, e, blocks).status == e.status
  {
  }

  lemma FinalResponse(cfg: Config, e: Engine, o: TurnOracle)
    requires RollsBackOnce(cfg) && FailsVerification(o)
    ensures var (f, done) := Complete(cfg, Responded(cfg, e, o.response.value), o.completion);
      Turn(cfg, e, o) == (f, if done then Returned else Continue)
  {
    var e1 := Responded(cfg, e, o.response.value);
    Unlimited(cfg, e.budget, o.beginClock);
    Unlimited(cfg, e1.budget, o.responseClock);
    assert Turn(cfg, e, o) == AfterResponse(cfg, e1, [], o);
  }

  lemma FinalTurn(cfg: Config, e: Engine, o: TurnOracle)
    requires RollsBackOnce(cfg) && FailsVerification(o)
    requires e.status == TaskRunning && PatchesOf(e.trajectory) == []
    ensures var (f, out) := Turn(cfg, e, o);
      var r := Rollback(e.budget.turns + 1, |e.journal.attempts|, true, e.files, RollbackReport(0, 0, 0));
      && out == Returned
      && SliceOf(f) == SliceOf(e).(turns := e.budget.turns + 1, rollbacks := e.journal.rollbacks + [r])
  {
    RespondedSlice(cfg, e, o.response.value);
    FailedCompletion(cfg, Responded(cfg, e, o.response.value), o.completion);
    FinalResponse(cfg, e, o);
  }

  // ---------------------------------------------------------------------
  // The run
  // ---------------------------------------------------------------------

  lemma LoopGoesOn(cfg: Config, e: Engine, env: nat -> TurnOracle, k: nat)
    requires k < cfg.maxTurns && Turn(cfg, e, env(k)).1 == Continue
    ensures Loop(cfg, e, env, k) == Loop(cfg, Turn(cfg, e, env(k)).0, env, k + 1)
  {
  }

  lemma LoopEnds(cfg: Config, e: Engine, env: nat -> TurnOracle, k: nat)
    requires k < cfg.maxTurns && Turn(cfg, e, env(k)).1 != Continue
    ensures Loop(cfg, e, env, k) == Turn(cfg, e, env(k))
  {
  }

  /** The slice of the whole run. */
  lemma StrayRunSlice(cfg: Config, start: Files, path: Path, opening: Opening, env: nat -> TurnOracle)
    requires StraysOnce(cfg, start, path, env)
    ensures var t := WriteOutcome(start, path, env(0));
      SliceOf(Run(cfg, start, opening, env).0) == Slice(
        [t.attempt.value], t.files, [WriteStep(path, env(0))],
        [Rollback(2, 1, true, t.files, RollbackReport(0, 0, 0))], 2)
  {
    var e := Opened(cfg, start, opening);
    var f := Turn(cfg, e, env(0)).0;
    OpenedSlice(cfg, start, opening);
    FirstTurn(cfg, start, path, e, env, opening);
    FinalTurn(cfg, f, env(1));
    LoopEnds(cfg, f, env, 1);
    CloseSlice(cfg, start, opening, env);
  }

  lemma FirstTurn(
      cfg: Config, start: Files, path: Path, e: Engine, env: nat -> TurnOracle, opening: Opening)
    requires StraysOnce(cfg, start, path, env) && e == Opened(cfg, start, opening)
    ensures var f, t := Turn(cfg, e, env(0)).0, WriteOutcome(start, path, env(0));
      && SliceOf(f) == Slice([t.attempt.value], t.files, [WriteStep(path, env(0))], [], 1)
      && f.status == TaskRunning && PatchesOf(f.trajectory) == []
      && Loop(cfg, e, env, 0) == Loop(cfg, f, env, 1)
  {
    OpenedSlice(cfg, start, opening);
    OpenedIsRunning(cfg, start, opening);
    WriteTurn(cfg, start, path, e, env(0));
    TurnLedger(cfg, e, env(0), 0);
    LoopGoesOn(cfg, e, env, 0);
    NoPatches(WriteStep(path, env(0)));
  }

  lemma NoPatches(step: Step)
    requires step.isError
    ensures PatchesOf([step]) == []
  {
    assert [step][..0] == [];
  }

  lemma CloseSlice(cfg: Config, start: Files, opening: Opening, env: nat -> TurnOracle)
    ensures SliceOf(Run(cfg, start, opening, env).0) == SliceOf(Loop(cfg, Opened(cfg, start, opening), env, 0).0)
  {
  }

  /**
   * The rollback is clean and reports no failure, and still the workspace is not the
   * start: the file that the failed write left behind remains, with the run over.
   */
  lemma StrayFileRemains(cfg: Config, start: Files, path: Path, opening: Opening, env: nat -> TurnOracle)
    requires StraysOnce(cfg, start, path, env)
    ensures var e := Run(cfg, start, opening, env).0;
      && |e.journal.rollbacks| == 1 && CleanRollback(iset{path}, e, 0)
      && e.journal.rollbacks[0].report.failed == 0 && e.journal.rollbacks[0].smooth
      && e.files == e.journal.rollbacks[0].files && path in e.files && path !in start
  {
    StrayRunSlice(cfg, start, path, opening, env);
    WriteIsStray(start, path, env(0));
    var e := Run(cfg, start, opening, env).0;
    var t := WriteOutcome(start, path, env(0));
    assert SliceOf(e).rollbacks[0].after == 1;
    assert Earlier(e.journal.attempts, e.journal.rollbacks[0]) == [t.attempt.value];
  }

  /** From every start without the file such a run exists: the replacement is denied and the unlink fails. */
  lemma StrayHappens(cfg: Config, start: Files, path: Path, text: string) returns (env: nat -> TurnOracle)
    requires RollsBackOnce(cfg) && path !in start && "" !in start && TempPath(path, "1") !in start
    ensures StraysOnce(cfg, start, path, env)
    ensures WriteOutcome(start, path, env(0)).files[path] == text
  {
    var io := ApplyIo(true, true, Written, Written, PermissionDenied, Written, false, Written);
    var call := ToolUse("call", "write_file", map["path" := path, "content" := text]);
    var tool := ToolOracle(false, Some(path), ToolIo(true, None, "1", "", io), false, "");
    var verdict := VerificationReport(CheckFailed, "", []);
    var completion := CompletionOracle(Some(verdict), "", "", (i: nat) => Smooth, false, "");
    env := (k: nat) => TurnOracle(
      0.0, Some(if k == 0 then [call] else []), 0.0, (i: nat) => tool, 0.0, completion);
    OneCall("call", "write_file", map["path" := path, "content" := text]);
    TempNameIsNew(path, "1");
  }

  lemma OneCall(id: string, name: string, input: Input)
    ensures CallsOf([ToolUse(id, name, input)]) == [Call(id, name, input)]
  {
    assert [ToolUse(id, name, input)][..0] == [];
  }
}
