// The threaded run store: lock-protected steps of many run threads, readers and
// submitters, interleaved in any order.
module RunStore {
  import opened Text

  type RunId = string

  datatype Status = Queued | Running | Succeeded | Failed
  {
    predicate Terminal() { Succeeded? || Failed? }

    function Rank(): nat
    {
      match this
      case Queued => 0
      case Running => 1
      case _ => 2
    }
  }

  datatype Event = RunQueued | RunStarted | RunFinished(status: Status) | RunFailed

  datatype Record = Record(task: string, status: Status, events: seq<Event>)

  type Records = map<RunId, Record>

  function SetStatus(runs: Records, id: RunId, status: Status): Records
  {
    if id in runs then runs[id := runs[id].(status := status)] else runs
  }

  function AddEvent(runs: Records, id: RunId, event: Event): Records
  {
    if id in runs then runs[id := runs[id].(events := runs[id].events + [event])] else runs
  }

  // ---------------------------------------------------------------------
  // The store
  // ---------------------------------------------------------------------

  class RunRecord {
    const task: string
    var status: Status
    var events: seq<Event>

    constructor (task: string)
      ensures this.task == task && status == Queued && events == []
    {
      this.task := task;
      status, events := Queued, [];
    }

    method Add(event: Event)
      modifies this
      ensures events == old(events) + [event] && status == old(status)
    {
      events := events + [event];
    }
  }

  /** Every method body runs under the lock, so each call is one atomic step. */
  class RunStore {
    var runs: map<RunId, RunRecord>

    /** Each id has a record of its own. */
    ghost predicate Valid()
      reads this
    {
      forall a, b | a in runs && b in runs && a != b :: runs[a] != runs[b]
    }

    ghost function View(): Records
      reads this, runs.Values
    {
      map id | id in runs :: Record(runs[id].task, runs[id].status, runs[id].events)
    }

    constructor ()
      ensures Valid() && View() == map[]
    {
      runs := map[];
    }

    method Create(id: RunId, task: string) returns (record: RunRecord)
      requires Valid() && id !in runs
      modifies this
      ensures Valid() && fresh(record) && runs == old(runs)[id := record]
      ensures View() == old(View())[id := Record(task, Queued, [RunQueued])]
    {
      record := NewRecord(task);
      ghost var before := runs;
      runs := runs[id := record];
      forall i | i in before ensures i != id && runs[i] == before[i] != record {
        assert before[i] in before.Values;
      }
      assert View().Keys == old(View()).Keys + {id};
    }

    method NewRecord(task: string) returns (record: RunRecord)
      ensures fresh(record)
      ensures record.task == task && record.status == Queued && record.events == [RunQueued]
    {
      record := new RunRecord(task);
      record.Add(RunQueued);
    }

    method Get(id: RunId) returns (record: Option<RunRecord>)
      ensures record == if id in runs then Some(runs[id]) else None
    {
      record := if id in runs then Some(runs[id]) else None;
    }

    /** A missing id is a KeyError in the source; here nothing happens and ok is false. */
    method Update(id: RunId, status: Status) returns (ok: bool)
      requires Valid()
      modifies runs.Values
      ensures Valid() && runs == old(runs)
      ensures ok == (id in runs) && View() == SetStatus(old(View()), id, status)
    {
      ok := id in runs;
      if ok {
        var record := runs[id];
        assert record in runs.Values;
        record.status := status;
      }
    }

    method AddEventTo(id: RunId, event: Event) returns (ok: bool)
      requires Valid()
      modifies runs.Values
      ensures Valid() && runs == old(runs)
      ensures ok == (id in runs) && View() == AddEvent(old(View()), id, event)
    {
      ok := id in runs;
      if ok {
        var record := runs[id];
        assert record in runs.Values;
        record.Add(event);
      }
    }

    /** One run thread with no other step in between. */
    method RunAgent(id: RunId, outcome: Outcome)
      requires Valid() && id in runs
      modifies runs.Values
      ensures Valid() && runs == old(runs)
      ensures View() == AddEvent(SetStatus(AddEvent(SetStatus(old(View()), id, Running), id, RunStarted),
                                           id, outcome.Status()), id, outcome.Event())
    {
      var _ := Update(id, Running);
      var _ := AddEventTo(id, RunStarted);
      var _ := Update(id, outcome.Status());
      var _ := AddEventTo(id, outcome.Event());
    }
  }

  // ---------------------------------------------------------------------
  // Interleavings
  // ---------------------------------------------------------------------

  /** What the agent call of a run thread does. */
  datatype Outcome = AgentReturned(stateStatus: Option<string>) | AgentRaised
  {
    function Status(): Status
    {
      match this
      case AgentReturned(None) => Succeeded
      case AgentReturned(Some(s)) => if s == "succeeded" then Succeeded else Failed
      case AgentRaised => Failed
    }

    function Event(): Event
    {
      if AgentRaised? then RunFailed else RunFinished(Status())
    }
  }

  /** Where the thread of a run is. */
  datatype Phase = Created | Ready | Marked | Working | Reporting(outcome: Outcome) | Done(outcome: Outcome)

  datatype System = System(runs: Records, phases: map<RunId, Phase>)

  datatype Step =
    | Submit(id: RunId, task: string)
    | StartThread(id: RunId)
    | MarkRunning(id: RunId)
    | ReportStarted(id: RunId)
    | Finish(id: RunId, outcome: Outcome)
    | ReportEnd(id: RunId)
    | Read(id: RunId)

  const INITIAL: System := System(map[], map[])

  predicate At(s: System, id: RunId, phase: Phase)
  {
    id in s.phases && s.phases[id] == phase
  }

  /** When the step can be taken: ids are fresh, a thread goes through its body in order. */
  predicate Enabled(s: System, step: Step)
  {
    match step
    case Submit(id, task) => id !in s.runs && !IsBlank(task)
    case StartThread(id) => At(s, id, Created)
    case MarkRunning(id) => At(s, id, Ready)
    case ReportStarted(id) => At(s, id, Marked)
    case Finish(id, _) => At(s, id, Working)
    case ReportEnd(id) => id in s.phases && s.phases[id].Reporting?
    case Read(_) => true
  }

  function Next(s: System, step: Step): System
    requires Enabled(s, step)
  {
    match step
    case Submit(id, task) =>
      System(s.runs[id := Record(task, Queued, [RunQueued])], s.phases[id := Created])
    case StartThread(id) => s.(phases := s.phases[id := Ready])
    case MarkRunning(id) => System(SetStatus(s.runs, id, Running), s.phases[id := Marked])
    case ReportStarted(id) => System(AddEvent(s.runs, id, RunStarted), s.phases[id := Working])
    case Finish(id, outcome) =>
      System(SetStatus(s.runs, id, outcome.Status()), s.phases[id := Reporting(outcome)])
    case ReportEnd(id) =>
      System(AddEvent(s.runs, id, s.phases[id].outcome.Event()), s.phases[id := Done(s.phases[id].outcome)])
    case Read(_) => s
  }

  ghost predicate Runs(s: System, steps: seq<Step>, t: System)
    decreases steps
  {
    if steps == [] then s == t
    else Enabled(s, steps[0]) && Runs(Next(s, steps[0]), steps[1..], t)
  }

  // ---------------------------------------------------------------------
  // What holds in every reachable state
  // ---------------------------------------------------------------------

  /** Status and events of a record, exactly, by the phase of its thread. */
  predicate Consistent(r: Record, phase: Phase)
  {
    match phase
    case Created => r.status == Queued && r.events == [RunQueued]
    case Ready => r.status == Queued && r.events == [RunQueued]
    case Marked => r.status == Running && r.events == [RunQueued]
    case Working => r.status == Running && r.events == [RunQueued, RunStarted]
    case Reporting(o) => r.status == o.Status() && r.events == [RunQueued, RunStarted]
    case Done(o) => r.status == o.Status() && r.events == [RunQueued, RunStarted, o.Event()]
  }

  predicate Inv(s: System)
  {
    s.runs.Keys == s.phases.Keys && forall id | id in s.runs :: Consistent(s.runs[id], s.phases[id])
  }

  lemma NextKeepsInv(s: System, step: Step)
    requires Inv(s) && Enabled(s, step)
    ensures Inv(Next(s, step))
  {
    if !step.Read? && !step.Submit? {
      assert step.id in s.runs && Consistent(s.runs[step.id], s.phases[step.id]);
    }
  }

  /** No step alters the record or the thread of another run. */
  lemma StepIsLocal(s: System, step: Step, other: RunId)
    requires Inv(s) && Enabled(s, step) && other in s.runs && other != step.id
    ensures var t := Next(s, step);
      other in t.runs && t.runs[other] == s.runs[other] && t.phases[other] == s.phases[other]
  {
  }

  lemma {:induction false} ReachableInv(s: System, steps: seq<Step>, t: System)
    requires Inv(s) && Runs(s, steps, t)
    ensures Inv(t)
    decreases steps
  {
    if steps != [] {
      NextKeepsInv(s, steps[0]);
      ReachableInv(Next(s, steps[0]), steps[1..], t);
    }
  }

  /** The status the events alone report. */
  function ReportedStatus(events: seq<Event>): Status
  {
    if events == [] then Queued
    else
      match events[|events| - 1]
      case RunQueued => Queued
      case RunStarted => Running
      case RunFinished(status) => status
      case RunFailed => Failed
  }

  /**
   * In every interleaving the events of a run are a prefix of queued, started, and
   * one of finished or failed; its status is the one they report, or one step ahead.
   */
  lemma EventsArePrefix(steps: seq<Step>, t: System, id: RunId)
    requires Runs(INITIAL, steps, t) && id in t.runs
    ensures var r := t.runs[id];
      && (exists end: Event | end.RunFinished? || end == RunFailed :: r.events <= [RunQueued, RunStarted, end])
      && r.events != []
      && ReportedStatus(r.events).Rank() <= r.status.Rank() <= ReportedStatus(r.events).Rank() + 1
      && (ReportedStatus(r.events).Terminal() ==> r.status == ReportedStatus(r.events))
  {
    ReachableInv(INITIAL, steps, t);
    var r := t.runs[id];
    assert Consistent(r, t.phases[id]);
    var end := match t.phases[id] case Done(o) => o.Event() case _ => RunFailed;
    assert r.events <= [RunQueued, RunStarted, end];
  }

  /** A status never goes back, and a terminal one never changes. */
  lemma {:induction false} StatusOnlyAdvances(s: System, steps: seq<Step>, t: System, id: RunId)
    requires Inv(s) && Runs(s, steps, t) && id in s.runs
    ensures id in t.runs && t.runs[id].task == s.runs[id].task
    ensures s.runs[id].events <= t.runs[id].events
    ensures s.runs[id].status.Rank() <= t.runs[id].status.Rank()
    ensures s.runs[id].status.Terminal() ==> t.runs[id].status == s.runs[id].status
    decreases steps
  {
    if steps != [] {
      var u := Next(s, steps[0]);
      NextKeepsInv(s, steps[0]);
      assert Consistent(s.runs[id], s.phases[id]);
      if id != steps[0].id {
        StepIsLocal(s, steps[0], id);
      }
      StatusOnlyAdvances(u, steps[1..], t, id);
    }
  }

  /** The steps of one run. */
  function OwnSteps(steps: seq<Step>, id: RunId): seq<Step>
  {
    if steps == [] then []
    else (if steps[0].id == id then [steps[0]] else []) + OwnSteps(steps[1..], id)
  }

  /** Two systems that agree on one run. */
  predicate SameRun(s: System, t: System, id: RunId)
  {
    id in s.runs && id in t.runs && s.runs[id] == t.runs[id] && s.phases.Keys == s.runs.Keys
    && t.phases.Keys == t.runs.Keys && s.phases[id] == t.phases[id]
  }

  /** The steps of other runs do not matter: the own steps of a run alone lead it to the same record. */
  lemma {:induction false} OwnStepsDecide(s: System, s': System, steps: seq<Step>, t: System, id: RunId)
    returns (t': System)
    requires Inv(s) && Inv(s') && SameRun(s, s', id) && Runs(s, steps, t)
    ensures Runs(s', OwnSteps(steps, id), t') && Inv(t) && SameRun(t, t', id)
    decreases steps
  {
    if steps == [] {
      t' := s';
    } else {
      var step := steps[0];
      NextKeepsInv(s, step);
      if step.id == id {
        assert !step.Submit?;
        NextKeepsInv(s', step);
        t' := OwnStepsDecide(Next(s, step), Next(s', step), steps[1..], t, id);
        assert OwnSteps(steps, id)[1..] == OwnSteps(steps[1..], id);
      } else {
        StepIsLocal(s, step, id);
        t' := OwnStepsDecide(Next(s, step), s', steps[1..], t, id);
        assert OwnSteps(steps, id) == OwnSteps(steps[1..], id);
      }
    }
  }
}
