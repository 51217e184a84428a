// What every rollback of a run restores, however many attempts were rolled back
// before it, and exactly when that is the workspace the run started from.
module RunRollback {
  import opened Text
  import opened Conversation
  import opened Patching
  import opened FileTools
  import opened RunTypes
  import opened RunSpec
  import opened RunTools
  import opened RunLedger
  import opened RunVerdicts

  /** Every one of these transactions was clean with respect to the workspace. */
  ghost predicate Hygienic(attempts: seq<Attempt>, workspace: iset<Path>)
  {
    forall i | 0 <= i < |attempts| :: Clean(attempts[i], workspace)
  }

  lemma HygienicPrefix(a: seq<Attempt>, b: seq<Attempt>, workspace: iset<Path>)
    requires a <= b && Hygienic(b, workspace)
    ensures Hygienic(a, workspace)
  {
    assert forall i | 0 <= i < |a| :: a[i] == b[i];
  }

  // ---------------------------------------------------------------------
  // Tool calls keep the baseline recoverable
  // ---------------------------------------------------------------------

  /** A tool call leaves the files alone, or observes one transaction. */
  ghost predicate IsTransaction(files: Files, t: ToolOutcome)
  {
    exists path, after, io :: t == Transact(files, path, after, io)
  }

  ghost predicate ToolTransacts(files: Files, t: ToolOutcome)
  {
    if t.attempt.None? then t.files == files && t.patch.None? else IsTransaction(files, t)
  }

  lemma WriteTransacts(files: Files, path: Path, content: string, io: ToolIo)
    ensures ToolTransacts(files, WriteFile(files, path, content, io))
  {
    TransactIsTransaction(files, path, content, io);
  }

  lemma EditTransacts(files: Files, path: Path, oldText: string, newText: string, io: ToolIo)
    ensures ToolTransacts(files, EditFile(files, path, oldText, newText, io))
  {
    if path in files {
      TransactIsTransaction(files, path, ReplaceFirst(files[path], oldText, newText), io);
    }
  }

  lemma TransactIsTransaction(files: Files, path: Path, after: string, io: ToolIo)
    ensures IsTransaction(files, Transact(files, path, after, io))
  {
  }

  lemma FileToolTransacts(files: Files, path: Path, call: Call, io: ToolIo)
    ensures ToolTransacts(files, FileTool(files, path, call, io))
  {
    var input := call.input;
    WriteTransacts(files, path, Get(input, "content"), io);
    EditTransacts(files, path, Get(input, "old_string"), Get(input, "new_string"), io);
  }

  /** What the trajectory keeps of an observation. */
  function PatchIn(out: Observed): seq<PatchRecord>
  {
    if !out.isError && out.patch.Some? then [out.patch.value] else []
  }

  function AttemptIn(out: Observed): seq<Attempt>
  {
    if out.attempt.Some? then [out.attempt.value] else []
  }

  ghost predicate SamePaths(attempts: seq<Attempt>, patches: seq<PatchRecord>)
  {
    forall p :: Patched(attempts, p) <==> Touched(patches, p)
  }

  /**
   * The invariant of a run's files: the recorded patches are those of the attempts
   * that succeeded, and what undoing them gives is the baseline.
   */
  ghost predicate Tracks(
      start: Files, files: Files, workspace: iset<Path>, attempts: seq<Attempt>, patches: seq<PatchRecord>)
  {
    && SamePaths(attempts, patches)
    && (Hygienic(attempts, workspace) ==>
          Coherent(start, attempts) && Recoverable(Baseline(start, attempts), files, workspace, patches))
  }

  lemma PatchedSnoc(attempts: seq<Attempt>, a: Attempt, p: Path)
    ensures Patched(attempts + [a], p) <==> Patched(attempts, p) || (a.kept && a.path == p)
  {
    var all := attempts + [a];
    assert forall i | 0 <= i < |attempts| :: all[i] == attempts[i];
    assert all[|attempts|] == a;
  }

  lemma TouchedSnoc(patches: seq<PatchRecord>, r: PatchRecord, p: Path)
    ensures Touched(patches + [r], p) <==> Touched(patches, p) || r.path == p
  {
    var all := patches + [r];
    assert forall i | 0 <= i < |patches| :: all[i] == patches[i];
    assert all[|patches|] == r;
  }

  lemma CoherentSnoc(start: Files, attempts: seq<Attempt>, a: Attempt)
    requires Coherent(start, attempts)
    requires !Patched(attempts, a.path) ==> a.found == At(Baseline(start, attempts), a.path)
    ensures Coherent(start, attempts + [a])
  {
    var all := attempts + [a];
    forall i | 0 <= i < |all| && !Patched(all[..i], all[i].path)
      ensures all[i].found == At(Baseline(start, all[..i]), all[i].path)
    {
      if i < |attempts| {
        assert all[..i] == attempts[..i] && all[i] == attempts[i];
      } else {
        assert all[..i] == attempts;
      }
    }
  }

  /** What is recoverable after an attempt. */
  ghost predicate Follows(
      base: Files, files: Files, workspace: iset<Path>, patches: seq<PatchRecord>, a: Attempt, patch: Option<PatchRecord>)
  {
    match patch
    case Some(r) => Recoverable(base, files, workspace, patches + [r])
    case None =>
      Recoverable(if Touched(patches, a.path) then base else SetAt(base, a.path, a.left), files, workspace, patches)
  }

  lemma TracksSnoc(
      start: Files, f: Files, g: Files, workspace: iset<Path>, attempts: seq<Attempt>, patches: seq<PatchRecord>,
      a: Attempt, patch: Option<PatchRecord>)
    requires Tracks(start, f, workspace, attempts, patches)
    requires a.kept == patch.Some? && a.found == At(f, a.path)
    requires patch.Some? ==> patch.value.path == a.path
    requires Hygienic(attempts, workspace) && Clean(a, workspace) ==>
      Follows(Baseline(start, attempts), g, workspace, patches, a, patch)
    ensures Tracks(start, g, workspace, attempts + [a], if patch.Some? then patches + [patch.value] else patches)
  {
    var more := if patch.Some? then patches + [patch.value] else patches;
    forall p ensures Patched(attempts + [a], p) <==> Touched(more, p) {
      PatchedSnoc(attempts, a, p);
      if patch.Some? {
        TouchedSnoc(patches, patch.value, p);
      }
    }
    if Hygienic(attempts + [a], workspace) {
      HygienicPrefix(attempts, attempts + [a], workspace);
      assert (attempts + [a])[|attempts|] == a;
      FoundIsBaseline(start, f, workspace, attempts, patches, a);
      CoherentSnoc(start, attempts, a);
      assert (attempts + [a])[..|attempts|] == attempts;
    }
  }

  /** One transaction keeps the invariant. */
  lemma TransactionTracks(
      start: Files, files: Files, workspace: iset<Path>, attempts: seq<Attempt>, patches: seq<PatchRecord>,
      path: Path, after: string, io: ToolIo)
    requires Tracks(start, files, workspace, attempts, patches)
    ensures var out := Transact(files, path, after, io);
      Tracks(start, out.files, workspace, attempts + [out.attempt.value],
             if out.patch.Some? then patches + [out.patch.value] else patches)
  {
    var out := Transact(files, path, after, io);
    var a := out.attempt.value;
    AttemptTells(files, path, after, io);
    if Hygienic(attempts, workspace) && Clean(a, workspace) {
      ToolKeepsRecoverable(Baseline(start, attempts), files, workspace, patches, path, after, io);
      assert Follows(Baseline(start, attempts), out.files, workspace, patches, a, out.patch);
    }
    TracksSnoc(start, files, out.files, workspace, attempts, patches, a, out.patch);
  }

  lemma FoundIsBaseline(
      start: Files, files: Files, workspace: iset<Path>, attempts: seq<Attempt>, patches: seq<PatchRecord>, a: Attempt)
    requires Tracks(start, files, workspace, attempts, patches) && Hygienic(attempts, workspace)
    requires a.path in workspace && a.found == At(files, a.path)
    ensures !Patched(attempts, a.path) ==> a.found == At(Baseline(start, attempts), a.path)
  {
    if !Patched(attempts, a.path) {
      OriginOfUntouched(files, patches, a.path);
      assert Origin(files, patches, a.path) == At(Baseline(start, attempts), a.path);
    }
  }

  lemma ExecuteTracks(
      start: Files, files: Files, workspace: iset<Path>, attempts: seq<Attempt>, patches: seq<PatchRecord>,
      call: Call, o: ToolOracle)
    requires Tracks(start, files, workspace, attempts, patches)
    ensures var out := Execute(files, call, o);
      Tracks(start, out.files, workspace, attempts + AttemptIn(out), patches + PatchIn(out))
  {
    var out := Execute(files, call, o);
    ExecuteObserves(files, call, o);
    assert patches + [] == patches && attempts + [] == attempts;
    if out.attempt.Some? {
      var t := FileTool(files, o.gate.value, call, o.io);
      FileToolTransacts(files, o.gate.value, call, o.io);
      var path, after, io :| t == Transact(files, path, after, io);
      TransactionTracks(start, files, workspace, attempts, patches, path, after, io);
    }
  }

  lemma OneToolEffect(cfg: Config, e: Engine, call: Call, o: ToolOracle)
    ensures var f, out := OneTool(cfg, e, call, o), Execute(e.files, call, o);
      && f.files == out.files
      && f.trajectory == e.trajectory + [Step(call.name, call.input, out.isError, out.patch)]
      && f.journal.attempts == e.journal.attempts + AttemptIn(out)
      && f.journal.rollbacks == e.journal.rollbacks && f.budget == e.budget
  {
  }

  /** The part of the state the rollback argument is about. */
  datatype Slice = Slice(
    attempts: seq<Attempt>, files: Files, trajectory: seq<Step>, rollbacks: seq<Rollback>, turns: nat)

  function SliceOf(e: Engine): Slice
  {
    Slice(e.journal.attempts, e.files, e.trajectory, e.journal.rollbacks, e.budget.turns)
  }

  ghost predicate Undoable(start: Files, workspace: iset<Path>, s: Slice)
  {
    Tracks(start, s.files, workspace, s.attempts, PatchesOf(s.trajectory))
  }

  /** Tool calls add attempts, and leave rollbacks and turns alone. */
  predicate Advances(s: Slice, t: Slice)
  {
    s.attempts <= t.attempts && t.rollbacks == s.rollbacks && t.turns == s.turns
  }

  lemma OneToolAdvances(cfg: Config, e: Engine, call: Call, o: ToolOracle)
    ensures Advances(SliceOf(e), SliceOf(OneTool(cfg, e, call, o)))
  {
    OneToolEffect(cfg, e, call, o);
  }

  lemma {:induction false} ToolsAdvance(cfg: Config, e: Engine, calls: seq<Call>, tools: nat -> ToolOracle, k: nat)
    requires k <= |calls|
    ensures Advances(SliceOf(e), SliceOf(ToolsAfter(cfg, e, calls, tools, k).0))
    decreases k
  {
    if k > 0 {
      ToolsAdvance(cfg, e, calls, tools, k - 1);
      OneToolAdvances(cfg, ToolsAfter(cfg, e, calls, tools, k - 1).0, calls[k - 1], tools(k - 1));
    }
  }

  lemma OneToolUndoable(
      cfg: Config, start: Files, workspace: iset<Path>, e: Engine, call: Call, o: ToolOracle)
    requires Undoable(start, workspace, SliceOf(e))
    ensures Undoable(start, workspace, SliceOf(OneTool(cfg, e, call, o)))
  {
    var f, out := OneTool(cfg, e, call, o), Execute(e.files, call, o);
    OneToolEffect(cfg, e, call, o);
    ExecuteTracks(start, e.files, workspace, e.journal.attempts, PatchesOf(e.trajectory), call, o);
    assert f.trajectory[..|e.trajectory|] == e.trajectory;
    assert PatchesOf(f.trajectory) == PatchesOf(e.trajectory) + PatchIn(out);
  }

  lemma {:induction false} ToolsUndoable(
      cfg: Config, start: Files, workspace: iset<Path>, e: Engine, calls: seq<Call>, tools: nat -> ToolOracle, k: nat)
    requires k <= |calls| && Undoable(start, workspace, SliceOf(e))
    ensures Undoable(start, workspace, SliceOf(ToolsAfter(cfg, e, calls, tools, k).0))
    decreases k
  {
    if k > 0 {
      ToolsUndoable(cfg, start, workspace, e, calls, tools, k - 1);
      OneToolUndoable(cfg, start, workspace, ToolsAfter(cfg, e, calls, tools, k - 1).0, calls[k - 1], tools(k - 1));
    }
  }

  // ---------------------------------------------------------------------
  // Rollbacks
  // ---------------------------------------------------------------------

  /** The attempts before a rollback. */
  function Earlier(attempts: seq<Attempt>, r: Rollback): seq<Attempt>
  {
    if r.after <= |attempts| then attempts[..r.after] else attempts
  }

  /** What a rollback owes: a report without failures means the baseline, no I/O fault means no failures. */
  ghost predicate Restores(start: Files, workspace: iset<Path>, earlier: seq<Attempt>, r: Rollback)
  {
    Hygienic(earlier, workspace) ==>
      && Coherent(start, earlier)
      && (r.report.failed == 0 ==> SameWorkspace(r.files, Baseline(start, earlier), workspace))
      && (r.smooth ==> r.report.failed == 0 && r.report.restored == r.report.attempted)
  }

  ghost predicate AllRestore(start: Files, workspace: iset<Path>, s: Slice)
  {
    forall i | 0 <= i < |s.rollbacks| ::
      && s.rollbacks[i].after <= |s.attempts|
      && Restores(start, workspace, Earlier(s.attempts, s.rollbacks[i]), s.rollbacks[i])
  }

  /** A rollback of this very turn left the files as they are. */
  ghost predicate Settled(s: Slice)
  {
    s.rollbacks != [] ==>
      var last := s.rollbacks[|s.rollbacks| - 1];
      last.turn <= s.turns && (last.turn == s.turns ==> s.files == last.files)
  }

  /** No rollback happened in this turn so far. */
  ghost predicate Quiet(s: Slice)
  {
    s.rollbacks != [] ==> s.rollbacks[|s.rollbacks| - 1].turn < s.turns
  }

  lemma RollbackRestores(start: Files, workspace: iset<Path>, e: Engine, restore: nat -> RestoreIo)
    requires Undoable(start, workspace, SliceOf(e))
    ensures var r := RollbackOf(e, restore);
      && Restores(start, workspace, e.journal.attempts, r)
      && (r.report.failed == 0 ==> Undoable(start, workspace, SliceOf(e).(files := r.files)))
  {
    var patches := PatchesOf(e.trajectory);
    var r := RollbackOf(e, restore);
    if Hygienic(e.journal.attempts, workspace) {
      var base := Baseline(start, e.journal.attempts);
      if r.report.failed == 0 {
        RollbackRestoresStart(base, e.files, workspace, patches, restore);
      }
      if r.smooth {
        RollbackWithoutFaults(e.files, workspace, patches, restore);
      }
    }
  }

  ghost predicate Kept(start: Files, workspace: iset<Path>, s: Slice)
  {
    Undoable(start, workspace, s) && AllRestore(start, workspace, s) && Settled(s)
  }

  /** At the end the baseline need not be recoverable any more. */
  ghost predicate KeptAtEnd(start: Files, workspace: iset<Path>, s: Slice)
  {
    AllRestore(start, workspace, s) && Settled(s)
  }

  lemma SliceRolledBack(start: Files, workspace: iset<Path>, s: Slice, r: Rollback)
    requires Kept(start, workspace, s) && Quiet(s) && r.turn == s.turns && r.after == |s.attempts|
    requires Restores(start, workspace, s.attempts, r)
    requires r.report.failed == 0 ==> Undoable(start, workspace, s.(files := r.files))
    ensures var t := s.(files := r.files, rollbacks := s.rollbacks + [r]);
      KeptAtEnd(start, workspace, t) && (r.report.failed == 0 ==> Kept(start, workspace, t))
  {
    assert Earlier(s.attempts, r) == s.attempts;
  }

  lemma CompleteSlice(cfg: Config, e: Engine, o: CompletionOracle)
    requires e.status == TaskRunning
    ensures var (f, done) := Complete(cfg, e, o);
      && SliceOf(f) == (if RollsBack(cfg, o) then
                          var r := RollbackOf(e, o.restore);
                          SliceOf(e).(files := r.files, rollbacks := e.journal.rollbacks + [r])
                        else SliceOf(e))
      && (!done && RollsBack(cfg, o) ==> RollbackOf(e, o.restore).report.failed == 0)
  {
    CompleteEffects(cfg, e, o);
    CompleteShape(cfg, e, o);
    assert e.journal.rollbacks + [] == e.journal.rollbacks;
  }

  lemma CompleteKept(cfg: Config, start: Files, workspace: iset<Path>, e: Engine, o: CompletionOracle)
    requires e.status == TaskRunning && Kept(start, workspace, SliceOf(e)) && Quiet(SliceOf(e))
    ensures var (f, done) := Complete(cfg, e, o);
      KeptAtEnd(start, workspace, SliceOf(f)) && (!done ==> Kept(start, workspace, SliceOf(f)))
  {
    CompleteSlice(cfg, e, o);
    if RollsBack(cfg, o) {
      RollbackRestores(start, workspace, e, o.restore);
      SliceRolledBack(start, workspace, SliceOf(e), RollbackOf(e, o.restore));
    }
  }

  lemma BatchKept(
      cfg: Config, start: Files, workspace: iset<Path>, e: Engine, calls: seq<Call>, tools: nat -> ToolOracle)
    requires Kept(start, workspace, SliceOf(e)) && Quiet(SliceOf(e))
    ensures Kept(start, workspace, SliceOf(AfterBatch(cfg, e, calls, tools)))
  {
    ToolsUndoable(cfg, start, workspace, e, calls, tools, |calls|);
    ToolsAdvance(cfg, e, calls, tools, |calls|);
    AdvancesKept(start, workspace, SliceOf(e), SliceOf(ToolsAfter(cfg, e, calls, tools, |calls|).0));
  }

  lemma AdvancesKept(start: Files, workspace: iset<Path>, s: Slice, t: Slice)
    requires Kept(start, workspace, s) && Quiet(s) && Advances(s, t) && Undoable(start, workspace, t)
    ensures Kept(start, workspace, t)
  {
    forall i | 0 <= i < |t.rollbacks|
      ensures Earlier(t.attempts, t.rollbacks[i]) == Earlier(s.attempts, s.rollbacks[i])
    {
    }
  }

  lemma BudgetSlice(e: Engine, reason: Reason, text: string)
    ensures SliceOf(FailForBudget(e, reason, text)) == SliceOf(e)
  {
  }

  ghost predicate KeptAfter(start: Files, workspace: iset<Path>, f: Engine, out: Outcome)
  {
    KeptAtEnd(start, workspace, SliceOf(f)) && (out == Continue ==> Kept(start, workspace, SliceOf(f)))
  }

  lemma AfterResponseKept(
      cfg: Config, start: Files, workspace: iset<Path>, e: Engine, calls: seq<Call>, o: TurnOracle)
    requires e.status == TaskRunning && Kept(start, workspace, SliceOf(e)) && Quiet(SliceOf(e))
    ensures var (f, out) := AfterResponse(cfg, e, calls, o); KeptAfter(start, workspace, f, out)
  {
    var reason := LimitReason(cfg, e.budget, o.responseClock);
    if reason.Some? {
      BudgetSlice(e, reason.value, ReasonText(reason.value));
    } else if calls == [] {
      CompleteKept(cfg, start, workspace, e, o.completion);
    } else {
      BatchKept(cfg, start, workspace, e, calls, o.tools);
      var f := AfterBatch(cfg, e, calls, o.tools);
      var spent := LimitReason(cfg, f.budget, o.toolsClock);
      if spent.Some? {
        BudgetSlice(f, spent.value, ReasonText(spent.value));
      }
    }
  }

  lemma BegunKept(start: Files, workspace: iset<Path>, s: Slice)
    requires Kept(start, workspace, s)
    ensures var t := s.(turns := s.turns + 1); Kept(start, workspace, t) && Quiet(t)
  {
  }

  lemma TurnKept(cfg: Config, start: Files, workspace: iset<Path>, e: Engine, o: TurnOracle)
    requires e.status == TaskRunning && Kept(start, workspace, SliceOf(e))
    ensures var (f, out) := Turn(cfg, e, o); KeptAfter(start, workspace, f, out)
  {
    var reason := LimitReason(cfg, e.budget, o.beginClock);
    if reason.Some? {
      BudgetSlice(e, reason.value, ReasonText(reason.value));
    } else {
      BegunKept(start, workspace, SliceOf(e));
      var e1 := BeginTurn(e);
      assert SliceOf(e1) == SliceOf(e).(turns := e.budget.turns + 1);
      if o.response.Some? {
        var e2 := Say(cfg, e1, Message(Assistant, Blocks(o.response.value)));
        assert SliceOf(e2) == SliceOf(e1);
        AfterResponseKept(cfg, start, workspace, e2, CallsOf(o.response.value), o);
      } else {
        assert SliceOf(Turn(cfg, e, o).0) == SliceOf(e1);
      }
    }
  }

  lemma {:induction false} LoopKept(
      cfg: Config, start: Files, workspace: iset<Path>, e: Engine, env: nat -> TurnOracle, k: nat)
    requires Running(cfg, e, k) && Kept(start, workspace, SliceOf(e))
    ensures KeptAtEnd(start, workspace, SliceOf(Loop(cfg, e, env, k).0))
    decreases cfg.maxTurns - k
  {
    if k >= cfg.maxTurns {
      assert SliceOf(TurnsSpent(cfg, e)) == SliceOf(e);
    } else {
      TurnKept(cfg, start, workspace, e, env(k));
      TurnLedger(cfg, e, env(k), k);
      if Turn(cfg, e, env(k)).1 == Continue {
        LoopKept(cfg, start, workspace, Turn(cfg, e, env(k)).0, env, k + 1);
      }
    }
  }

  lemma OpenedSlice(cfg: Config, start: Files, opening: Opening)
    ensures SliceOf(Opened(cfg, start, opening)) == Slice([], start, [], [], 0)
  {
  }

  lemma RunKept(cfg: Config, start: Files, workspace: iset<Path>, opening: Opening, env: nat -> TurnOracle)
    requires "" !in start && "" !in workspace
    ensures KeptAtEnd(start, workspace, SliceOf(Run(cfg, start, opening, env).0))
  {
    var e := Opened(cfg, start, opening);
    OpenedIsRunning(cfg, start, opening);
    OpenedSlice(cfg, start, opening);
    assert Recoverable(start, start, workspace, []);
    LoopKept(cfg, start, workspace, e, env, 0);
  }

  /** The run ended with this rollback, or went on after it; the attempts before it were clean. */
  ghost predicate CleanRollback(workspace: iset<Path>, e: Engine, i: nat)
  {
    i < |e.journal.rollbacks| && Hygienic(Earlier(e.journal.attempts, e.journal.rollbacks[i]), workspace)
  }

  /** What a rollback without failures, and one without faults, did to the workspace. */
  ghost predicate RollbackTells(start: Files, workspace: iset<Path>, earlier: seq<Attempt>, r: Rollback)
  {
    && (r.report.failed == 0 ==> forall p | p in workspace ::
          At(r.files, p) == At(start, p) <==> Unharmed(start, earlier, p))
    && (r.smooth ==> r.report.failed == 0 && r.report.restored == r.report.attempted)
  }

  lemma RestoresTells(start: Files, workspace: iset<Path>, earlier: seq<Attempt>, r: Rollback)
    requires Restores(start, workspace, earlier, r) && Hygienic(earlier, workspace)
    ensures RollbackTells(start, workspace, earlier, r)
  {
    if r.report.failed == 0 {
      forall p | p in workspace ensures At(r.files, p) == At(start, p) <==> Unharmed(start, earlier, p) {
        BaselineExactly(start, earlier, p);
      }
    }
  }

  lemma KeptTells(start: Files, workspace: iset<Path>, e: Engine, i: nat)
    requires KeptAtEnd(start, workspace, SliceOf(e)) && CleanRollback(workspace, e, i)
    ensures var r := e.journal.rollbacks[i]; RollbackTells(start, workspace, Earlier(e.journal.attempts, r), r)
  {
    var r := e.journal.rollbacks[i];
    assert Restores(start, workspace, Earlier(e.journal.attempts, r), r);
    RestoresTells(start, workspace, Earlier(e.journal.attempts, r), r);
  }

  /**
   * In every run, a rollback whose report has no failure puts a workspace path back
   * to its content, or absence, at the start of the run exactly if no earlier failed
   * attempt harmed the path before it had a recorded patch (or the last such harm
   * happened to leave the start). Without I/O faults every recorded patch counts as
   * restored. Earlier rollbacks of the same patches make no difference.
   */
  lemma EveryRollbackRestoresStart(
      cfg: Config, start: Files, workspace: iset<Path>, opening: Opening, env: nat -> TurnOracle, i: nat)
    requires "" !in start && "" !in workspace && CleanRollback(workspace, Run(cfg, start, opening, env).0, i)
    ensures var e := Run(cfg, start, opening, env).0;
      var r := e.journal.rollbacks[i];
      RollbackTells(start, workspace, Earlier(e.journal.attempts, r), r)
  {
    RunKept(cfg, start, workspace, opening, env);
    KeptTells(start, workspace, Run(cfg, start, opening, env).0, i);
  }

  lemma NoHarmTells(start: Files, workspace: iset<Path>, earlier: seq<Attempt>, r: Rollback)
    requires RollbackTells(start, workspace, earlier, r) && r.report.failed == 0
    requires forall k | 0 <= k < |earlier| :: !Harmful(earlier, k)
    ensures SameWorkspace(r.files, start, workspace)
  {
    forall p | p in workspace ensures Unharmed(start, earlier, p) {
      NoHarmExactly(earlier, p);
    }
  }

  /** So with no harmful attempt before it, a rollback without failures restores the whole workspace. */
  lemma HarmlessRollbackRestoresStart(
      cfg: Config, start: Files, workspace: iset<Path>, opening: Opening, env: nat -> TurnOracle, i: nat)
    requires "" !in start && "" !in workspace && CleanRollback(workspace, Run(cfg, start, opening, env).0, i)
    ensures var e := Run(cfg, start, opening, env).0;
      var r := e.journal.rollbacks[i];
      var earlier := Earlier(e.journal.attempts, r);
      r.report.failed == 0 && (forall k | 0 <= k < |earlier| :: !Harmful(earlier, k))
      ==> SameWorkspace(r.files, start, workspace)
  {
    EveryRollbackRestoresStart(cfg, start, workspace, opening, env, i);
    var e := Run(cfg, start, opening, env).0;
    var r := e.journal.rollbacks[i];
    var earlier := Earlier(e.journal.attempts, r);
    if r.report.failed == 0 && forall k | 0 <= k < |earlier| :: !Harmful(earlier, k) {
      NoHarmTells(start, workspace, earlier, r);
    }
  }

  /** A rollback without failures in the last turn of the run, after clean attempts. */
  ghost predicate EndsRolledBack(workspace: iset<Path>, e: Engine)
  {
    e.journal.rollbacks != [] && CleanRollback(workspace, e, |e.journal.rollbacks| - 1)
    && var last := e.journal.rollbacks[|e.journal.rollbacks| - 1];
      last.turn == e.budget.turns && last.report.failed == 0
  }

  /** A path holds what it held at the start exactly if it is unharmed. */
  ghost predicate LeavesUnharmed(start: Files, workspace: iset<Path>, e: Engine)
  {
    var earlier := if e.journal.rollbacks == [] then []
      else Earlier(e.journal.attempts, e.journal.rollbacks[|e.journal.rollbacks| - 1]);
    forall p | p in workspace :: At(e.files, p) == At(start, p) <==> Unharmed(start, earlier, p)
  }

  lemma SettledTells(start: Files, workspace: iset<Path>, e: Engine)
    requires KeptAtEnd(start, workspace, SliceOf(e)) && EndsRolledBack(workspace, e)
    ensures LeavesUnharmed(start, workspace, e)
  {
    KeptTells(start, workspace, e, |e.journal.rollbacks| - 1);
  }

  /** A run whose last turn rolled back without failures hands the workspace back as that rollback left it. */
  lemma RolledBackRunLeavesStart(
      cfg: Config, start: Files, workspace: iset<Path>, opening: Opening, env: nat -> TurnOracle)
    requires "" !in start && "" !in workspace && EndsRolledBack(workspace, Run(cfg, start, opening, env).0)
    ensures LeavesUnharmed(start, workspace, Run(cfg, start, opening, env).0)
  {
    RunKept(cfg, start, workspace, opening, env);
    SettledTells(start, workspace, Run(cfg, start, opening, env).0);
  }
}
