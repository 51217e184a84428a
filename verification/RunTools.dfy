// What a tool call does, told by the call alone: which text it puts where, when it
// fails, which plan step it moves, and what of it the model is answered.
module RunTools {
  import opened Text
  import opened Conversation
  import opened Patching
  import opened FileTools
  import opened RunTypes
  import opened Planning
  import opened RunSpec

  // ---------------------------------------------------------------------
  // One call
  // ---------------------------------------------------------------------

  /** A write that leaves a patch left the content; it leaves one exactly if the old text was readable and the I/O did not fail. */
  ghost predicate Wrote(files: Files, path: Path, content: string, io: ToolIo, out: Observed)
  {
    && (out.patch.Some? <==> (path in files ==> io.readable) && !Fails(path in files, io.io))
    && (out.patch.Some? && '/' !in io.id ==> At(out.files, path) == Some(content))
    && (path in files && !io.readable ==> out.files == files)
  }

  /** The file can be edited: it exists, and holds the pattern in one match. */
  predicate Editable(files: Files, path: Path, pattern: string, io: ToolIo)
  {
    path in files && io.readable && pattern != "" && Count(files[path], pattern, 0) == 1
  }

  /** An edit that leaves a patch turned one occurrence of the old text into the new. */
  ghost predicate Edited(files: Files, path: Path, oldText: string, newText: string, io: ToolIo, out: Observed)
  {
    && (out.patch.Some? <==> Editable(files, path, oldText, io) && !Fails(true, io.io))
    && (out.patch.Some? && '/' !in io.id ==>
          path in files && path in out.files && RewritesOne(files[path], out.files[path], oldText, newText))
    && (!Editable(files, path, oldText, io) ==> out.files == files)
  }

  /** What was observed of a call, in terms of its name, its arguments and the environment. */
  ghost predicate Dispatched(files: Files, call: Call, o: ToolOracle, out: Observed)
  {
    if o.blocked || o.gate.None? then out == Observed(files, true, None, None)
    else if call.name != "write_file" && call.name != "edit_file" then out == Observed(files, o.fails, None, None)
    else if "path" !in call.input then out == Observed(files, true, None, None)
    else
      && (out.isError <==> out.patch.None?)
      && (call.name == "write_file" ==> Wrote(files, o.gate.value, Get(call.input, "content"), o.io, out))
      && (call.name == "edit_file" ==>
            Edited(files, o.gate.value, Get(call.input, "old_string"), Get(call.input, "new_string"), o.io, out))
  }

  lemma WriteTells(files: Files, path: Path, content: string, io: ToolIo)
    ensures Wrote(files, path, content, io, Observe(WriteFile(files, path, content, io)))
  {
    var c := ChangeFor(files, path, content, io.root, io.id);
    FailsExactly(c, files, io.io);
    TransactInstalls(files, path, content, io);
  }

  /** A transaction that leaves a patch leaves the whole new text. */
  lemma TransactInstalls(files: Files, path: Path, after: string, io: ToolIo)
    ensures var out := Transact(files, path, after, io);
      out.patch.Some? && '/' !in io.id ==> At(out.files, path) == Some(after)
  {
    var c := ChangeFor(files, path, after, io.root, io.id);
    if c.Apply(files, io.io).kept.Some? && '/' !in io.id {
      AuxiliaryNamesAreNew(path, io.root, io.id);
      if path in files {
        InstalledText(c, files, io.io);
      }
    }
  }

  lemma EditTells(files: Files, path: Path, oldText: string, newText: string, io: ToolIo)
    ensures Edited(files, path, oldText, newText, io, Observe(EditFile(files, path, oldText, newText, io)))
  {
    EditRewritesOneMatch(files, path, oldText, newText, io);
    EditYields(files, path, oldText, newText, io);
  }

  lemma EditYields(files: Files, path: Path, oldText: string, newText: string, io: ToolIo)
    ensures var out := EditFile(files, path, oldText, newText, io);
      && (out.patch.Some? <==> Editable(files, path, oldText, io) && !Fails(true, io.io))
      && (!Editable(files, path, oldText, io) ==> out.files == files)
  {
    if Editable(files, path, oldText, io) {
      TransactYields(files, path, ReplaceFirst(files[path], oldText, newText), io);
    }
  }

  lemma TransactYields(files: Files, path: Path, after: string, io: ToolIo)
    ensures Transact(files, path, after, io).patch.Some? <==> !Fails(path in files, io.io)
  {
    FailsExactly(ChangeFor(files, path, after, io.root, io.id), files, io.io);
  }

  /** Every call is dispatched like that. */
  lemma ExecuteExactly(files: Files, call: Call, o: ToolOracle)
    ensures Dispatched(files, call, o, Execute(files, call, o))
  {
    if o.gate.Some? {
      if call.name == "write_file" {
        WriteTells(files, o.gate.value, Get(call.input, "content"), o.io);
      } else {
        EditTells(files, o.gate.value, Get(call.input, "old_string"), Get(call.input, "new_string"), o.io);
      }
    }
  }

  /** A tool call observes nothing, or the outcome of a file tool. */
  lemma ExecuteObserves(files: Files, call: Call, o: ToolOracle)
    ensures var out := Execute(files, call, o);
      || out == Observed(files, out.isError, None, None)
      || (o.gate.Some? && out == Observe(FileTool(files, o.gate.value, call, o.io)))
  {
  }

  /** Away from a path and its auxiliary files nothing changed. */
  ghost predicate Local(files: Files, after: Files, path: Path, io: ToolIo, q: Path)
  {
    q != path && q != TempPath(path, io.id) && q != BackupPath(path, io.root, io.id) ==> At(after, q) == At(files, q)
  }

  /** A call changes no file but the one the gate resolved, its temporary file and its backup. */
  lemma ExecuteIsLocal(files: Files, call: Call, o: ToolOracle, q: Path)
    ensures var after := Execute(files, call, o).files;
      if o.gate.None? then after == files else Local(files, after, o.gate.value, o.io, q)
  {
    ExecuteObserves(files, call, o);
    if o.gate.Some? {
      FileToolIsLocal(files, o.gate.value, call, o.io, q);
    }
  }

  lemma FileToolIsLocal(files: Files, path: Path, call: Call, io: ToolIo, q: Path)
    ensures Local(files, FileTool(files, path, call, io).files, path, io, q)
  {
    if call.name == "write_file" {
      WriteIsLocal(files, path, Get(call.input, "content"), io, q);
    } else {
      EditIsLocal(files, path, Get(call.input, "old_string"), Get(call.input, "new_string"), io, q);
    }
  }

  lemma WriteIsLocal(files: Files, path: Path, content: string, io: ToolIo, q: Path)
    ensures Local(files, WriteFile(files, path, content, io).files, path, io, q)
  {
    TransactIsLocal(files, path, content, io, q);
  }

  lemma EditIsLocal(files: Files, path: Path, oldText: string, newText: string, io: ToolIo, q: Path)
    ensures Local(files, EditFile(files, path, oldText, newText, io).files, path, io, q)
  {
    if path in files {
      TransactIsLocal(files, path, ReplaceFirst(files[path], oldText, newText), io, q);
    }
  }

  lemma TransactIsLocal(files: Files, path: Path, after: string, io: ToolIo, q: Path)
    ensures Local(files, Transact(files, path, after, io).files, path, io, q)
  {
    if q != path && q != TempPath(path, io.id) && q != BackupPath(path, io.root, io.id) {
      ApplyFrame(ChangeFor(files, path, after, io.root, io.id), files, io.io, q);
    }
  }

  // ---------------------------------------------------------------------
  // The plan step of a call
  // ---------------------------------------------------------------------

  /** The step of the kind moved to the status, unless it was DONE; no other step changed. */
  ghost predicate Moved(p: PlanView, q: PlanView, kind: string, status: StepStatus)
  {
    var i := StepIndex(p, kind);
    && |q| == |p| && (forall j | 0 <= j < |p| && j != i :: q[j] == p[j])
    && (i < |p| ==>
          if p[i].status.Done? then q[i] == p[i]
          else q[i].status == status && q[i].kind == kind && q[i].index == p[i].index)
  }

  /** What an observation does to the plan: reading inspects, writing modifies, a test-like command verifies. */
  ghost predicate Observes(cfg: Config, p: PlanView, q: PlanView, call: Call, isError: bool)
  {
    var status := if isError then InProgress else Done;
    && (call.name in {"read_file", "grep", "glob", "ast_context"} ==> Moved(p, q, INSPECT_CONTEXT, status))
    && (call.name in {"write_file", "edit_file"} ==> Moved(p, q, MODIFY_WORKSPACE, status))
    && (call.name == "bash" ==> if cfg.looksLikeTest(call.input) then Moved(p, q, VERIFY_OUTCOME, status) else q == p)
    && (call.name !in {"read_file", "grep", "glob", "ast_context", "write_file", "edit_file", "bash"} ==> q == p)
  }

  lemma MarkMoves(p: PlanView, kind: string, status: StepStatus, evidence: string)
    requires !status.Blocked?
    ensures Moved(p, PlanAfter(p, Mark(kind, status, evidence)), kind, status)
  {
  }

  /** A call moves the step of its tool, and no other. */
  lemma ToolMoves(cfg: Config, e: Engine, call: Call, o: ToolOracle)
    requires e.plan.Some?
    ensures var f := OneTool(cfg, e, call, o);
      f.plan.Some? && Observes(cfg, e.plan.value, f.plan.value, call, Execute(e.files, call, o).isError)
  {
    var out := Execute(e.files, call, o);
    var mark := ToolMark(cfg, call, out);
    MarkOfTool(cfg, call, out);
    if mark.Some? {
      MarkMoves(e.plan.value, mark.value.kind, mark.value.status, mark.value.evidence);
    }
  }

  lemma MarkOfTool(cfg: Config, call: Call, out: Observed)
    ensures var mark := ToolMark(cfg, call, out);
      && (mark.Some? ==> mark.value.Mark? && mark.value.status == if out.isError then InProgress else Done)
      && (call.name in {"read_file", "grep", "glob", "ast_context"} ==> mark.Some? && mark.value.kind == INSPECT_CONTEXT)
      && (call.name in {"write_file", "edit_file"} ==> mark.Some? && mark.value.kind == MODIFY_WORKSPACE)
      && (call.name == "bash" ==>
            if cfg.looksLikeTest(call.input) then mark.Some? && mark.value.kind == VERIFY_OUTCOME else mark.None?)
      && (call.name !in {"read_file", "grep", "glob", "ast_context", "write_file", "edit_file", "bash"} ==> mark.None?)
  {
  }

  // ---------------------------------------------------------------------
  // What a batch records and answers
  // ---------------------------------------------------------------------

  /** What was observed of the first k calls, each executed on the files its predecessors left. */
  function Observations(
      cfg: Config, e: Engine, calls: seq<Call>, tools: nat -> ToolOracle, k: nat): (outs: seq<Observed>)
    requires k <= |calls|
    ensures |outs| == k
  {
    if k == 0 then []
    else
      Observations(cfg, e, calls, tools, k - 1)
        + [Execute(ToolsAfter(cfg, e, calls, tools, k - 1).0.files, calls[k - 1], tools(k - 1))]
  }

  /** Every observed call is recorded as a step, and answered with its own output, in order. */
  ghost predicate Answers(
      before: seq<Step>, after: seq<Step>, results: seq<Block>, outs: seq<Observed>, calls: seq<Call>,
      tools: nat -> ToolOracle)
    requires |outs| <= |calls|
  {
    && |results| == |outs| && |after| == |before| + |outs| && before <= after
    && forall i | 0 <= i < |outs| ::
      && results[i] == ToolResult(calls[i].id, tools(i).output, outs[i].isError)
      && after[|before| + i] == Step(calls[i].name, calls[i].input, outs[i].isError, outs[i].patch)
  }

  lemma AnswersNext(
      before: seq<Step>, after: seq<Step>, results: seq<Block>, outs: seq<Observed>, calls: seq<Call>,
      tools: nat -> ToolOracle, out: Observed)
    requires |outs| < |calls| && Answers(before, after, results, outs, calls, tools)
    ensures var call, o := calls[|outs|], tools(|outs|);
      Answers(before, after + [Step(call.name, call.input, out.isError, out.patch)],
              results + [ToolResult(call.id, o.output, out.isError)], outs + [out], calls, tools)
  {
  }

  lemma OneToolStep(cfg: Config, e: Engine, call: Call, o: ToolOracle)
    ensures var out := Execute(e.files, call, o);
      OneTool(cfg, e, call, o).trajectory == e.trajectory + [Step(call.name, call.input, out.isError, out.patch)]
  {
  }

  ghost predicate Told(cfg: Config, e: Engine, calls: seq<Call>, tools: nat -> ToolOracle, k: nat)
    requires k <= |calls|
  {
    var (f, results) := ToolsAfter(cfg, e, calls, tools, k);
    Answers(e.trajectory, f.trajectory, results, Observations(cfg, e, calls, tools, k), calls, tools)
  }

  /** A batch records and answers what it observed. */
  lemma {:induction false} BatchTells(cfg: Config, e: Engine, calls: seq<Call>, tools: nat -> ToolOracle, k: nat)
    requires k <= |calls|
    ensures Told(cfg, e, calls, tools, k)
    decreases k
  {
    if k == 0 {
      BatchStarts(cfg, e, calls, tools);
    } else {
      BatchTells(cfg, e, calls, tools, k - 1);
      BatchStep(cfg, e, calls, tools, k - 1);
    }
  }

  lemma BatchStarts(cfg: Config, e: Engine, calls: seq<Call>, tools: nat -> ToolOracle)
    ensures Told(cfg, e, calls, tools, 0)
  {
  }

  lemma BatchStep(cfg: Config, e: Engine, calls: seq<Call>, tools: nat -> ToolOracle, k: nat)
    requires k < |calls| && Told(cfg, e, calls, tools, k)
    ensures Told(cfg, e, calls, tools, k + 1)
  {
    var (f, results) := ToolsAfter(cfg, e, calls, tools, k);
    var outs := Observations(cfg, e, calls, tools, k);
    var out := Execute(f.files, calls[k], tools(k));
    OneToolStep(cfg, f, calls[k], tools(k));
    AnswersNext(e.trajectory, f.trajectory, results, outs, calls, tools, out);
  }
}
