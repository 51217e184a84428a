// Records shared by the parts of the run engine.
module RunTypes {
  import opened Text
  import opened Conversation
  import opened Patching

  /** A tool call with its observation, as the trajectory keeps it. */
  datatype Step = Step(tool: string, input: Input, isError: bool, patch: Option<PatchRecord>)

  datatype CheckStatus = CheckPassed | CheckFailed | CheckSkipped

  datatype SandboxStatus = SandboxOk | SandboxTimedOut | SandboxViolation | SandboxError

  datatype TestResult = TestResult(recognized: bool, failed: int, errors: int, reportedFailed: bool)

  datatype Check =
    | FinalResponse(status: CheckStatus)
    | TaskConstraints(status: CheckStatus)
    | VerificationCommand(status: CheckStatus, sandbox: SandboxStatus, timedOut: bool, tests: TestResult)
    | OtherCheck(status: CheckStatus)

  datatype VerificationReport = VerificationReport(status: CheckStatus, summary: string, checks: seq<Check>)

  datatype TaskStatus = TaskPending | TaskRunning | TaskSucceeded | TaskFailed

  /** patch_metadata_from_state: the patches of the steps that are not errors, in order. */
  function PatchesOf(trajectory: seq<Step>): seq<PatchRecord>
  {
    if trajectory == [] then []
    else
      var s := trajectory[|trajectory| - 1];
      PatchesOf(trajectory[..|trajectory| - 1])
        + if !s.isError && s.patch.Some? then [s.patch.value] else []
  }

  lemma {:induction false} PatchesConcat(a: seq<Step>, b: seq<Step>)
    ensures PatchesOf(a + b) == PatchesOf(a) + PatchesOf(b)
  {
    if b == [] {
      assert a + b == a;
    } else {
      PatchesConcat(a, b[..|b| - 1]);
      assert (a + b)[..|a + b| - 1] == a + b[..|b| - 1];
    }
  }

  method PatchMetadataFromState(trajectory: seq<Step>) returns (patches: seq<PatchRecord>)
    ensures patches == PatchesOf(trajectory)
  {
    patches := [];
    for i := 0 to |trajectory|
      invariant patches == PatchesOf(trajectory[..i])
    {
      assert trajectory[..i + 1][..i] == trajectory[..i];
      if trajectory[i].isError {
        continue;
      }
      if trajectory[i].patch.Some? {
        patches := patches + [trajectory[i].patch.value];
      }
    }
    assert trajectory[..|trajectory|] == trajectory;
  }
}
