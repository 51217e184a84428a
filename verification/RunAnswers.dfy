// Where the tool answers come from that the model is shown: every exchange in a list
// sent in some turn is the response of an earlier turn, answered with what the tools
// gave in that turn, call by call.
module RunAnswers {
  import opened Text
  import opened Conversation
  import opened Exchanges
  import opened Patching
  import opened RunSpec
  import opened RunTools
  import opened RunLedger
  import opened RunConversation
  import opened RunEnding

  /** The response of the turn, and an answer that holds the output of every call of it. */
  ghost predicate FromTurn(o: TurnOracle, call: Message, answer: Message)
  {
    && o.response.Some? && call == Message(Assistant, Blocks(o.response.value))
    && var calls := CallsOf(o.response.value);
       answer.content.Blocks? && |answer.content.blocks| == |calls|
       && forall i | 0 <= i < |calls| ::
            && answer.content.blocks[i].ToolResult?
            && answer.content.blocks[i].useId == calls[i].id
            && answer.content.blocks[i].output == o.tools(i).output
  }

  /** Every exchange of the list is from one of the first n turns. */
  ghost predicate Honest(env: nat -> TurnOracle, n: nat, ms: seq<Message>)
  {
    forall u | u in Units(ms) && |u| == 2 :: exists k: nat :: k < n && FromTurn(env(k), u[0], u[1])
  }

  lemma HonestAmong(env: nat -> TurnOracle, n: nat, a: seq<Message>, b: seq<Message>)
    requires Honest(env, n, b) && UnitsAmong(a, b)
    ensures Honest(env, n, a)
  {
  }

  lemma HonestLater(env: nat -> TurnOracle, n: nat, ms: seq<Message>)
    requires Honest(env, n, ms)
    ensures Honest(env, n + 1, ms)
  {
    forall u | u in Units(ms) && |u| == 2 ensures exists k: nat :: k < n + 1 && FromTurn(env(k), u[0], u[1]) {
      var k: nat :| k < n && FromTurn(env(k), u[0], u[1]);
      assert k < n + 1;
    }
  }

  lemma HonestWith(env: nat -> TurnOracle, n: nat, ms: seq<Message>, u: Unit)
    requires Paired(ms) && Honest(env, n, ms)
    requires |u| == 1 || (|u| == 2 && IsAssistantTool(u[0]) && IsToolResult(u[1]))
    requires |u| == 2 ==> exists k: nat :: k < n && FromTurn(env(k), u[0], u[1])
    ensures Honest(env, n, ms + u)
  {
    UnitsSnoc(ms, u);
  }

  /** A window whose exchanges are all from the first n turns. */
  ghost predicate HonestWindow(task: Message, env: nat -> TurnOracle, n: nat, ms: seq<Message>)
  {
    Window(task, ms) && Honest(env, n, ms[1..])
  }

  // ---------------------------------------------------------------------
  // The three ways a run appends
  // ---------------------------------------------------------------------

  lemma PlainStaysHonest(
      env: nat -> TurnOracle, n: nat, maxMessages: int, task: Message, ms: seq<Message>, m: Message)
    requires HonestWindow(task, env, n, ms) && IsPlain(m)
    ensures HonestWindow(task, env, n, Trimmed(maxMessages, ms + [m]))
  {
    AppendPlain(maxMessages, task, ms, m);
    var kept := TrimKeepsNewest(maxMessages, task, ms, [m]);
    HonestAmong(env, n, kept[1..], ms[1..]);
    HonestWith(env, n, kept[1..], [m]);
    assert (kept + [m])[1..] == kept[1..] + [m];
  }

  /** A call is still to be answered; the window before it is honest. */
  ghost predicate PendingHonest(env: nat -> TurnOracle, n: nat, task: Message, ms: seq<Message>, call: Message)
  {
    Pending(task, ms, call) && HonestWindow(task, env, n, ms[..|ms| - 1])
  }

  lemma CallStaysHonest(
      env: nat -> TurnOracle, n: nat, maxMessages: int, task: Message, ms: seq<Message>, call: Message)
    requires HonestWindow(task, env, n, ms) && IsAssistantTool(call)
    ensures PendingHonest(env, n, task, Trimmed(maxMessages, ms + [call]), call)
  {
    AppendCalls(maxMessages, task, ms, call);
    var kept := TrimKeepsNewest(maxMessages, task, ms, [call]);
    HonestAmong(env, n, kept[1..], ms[1..]);
    assert (kept + [call])[..|kept|] == kept;
  }

  lemma HonestWithExchange(
      env: nat -> TurnOracle, n: nat, task: Message, kept: seq<Message>, call: Message, answer: Message)
    requires HonestWindow(task, env, n, kept) && IsExchange(call, answer) && FromTurn(env(n), call, answer)
    ensures Honest(env, n + 1, (kept + [call, answer])[1..])
  {
    HonestLater(env, n, kept[1..]);
    assert n < n + 1;
    HonestWith(env, n + 1, kept[1..], [call, answer]);
    assert (kept + [call, answer])[1..] == kept[1..] + [call, answer];
  }

  lemma AnswerStaysHonest(
      env: nat -> TurnOracle, n: nat, maxMessages: int, task: Message, ms: seq<Message>, call: Message,
      answer: Message)
    requires PendingHonest(env, n, task, ms, call) && IsExchange(call, answer) && FromTurn(env(n), call, answer)
    ensures HonestWindow(task, env, n + 1, Trimmed(maxMessages, ms + [answer]))
  {
    var older := ms[..|ms| - 1];
    assert ms + [answer] == older + [call, answer];
    AppendResults(maxMessages, task, ms, call, answer);
    var kept := TrimKeepsNewest(maxMessages, task, older, [call, answer]);
    HonestAmong(env, n, kept[1..], older[1..]);
    HonestWithExchange(env, n, task, kept, call, answer);
  }

  // ---------------------------------------------------------------------
  // Turns
  // ---------------------------------------------------------------------

  lemma BatchIsFromTurn(cfg: Config, e: Engine, o: TurnOracle)
    requires o.response.Some?
    ensures var calls := CallsOf(o.response.value);
      FromTurn(o, Message(Assistant, Blocks(o.response.value)),
               Message(User, Blocks(ToolsAfter(cfg, e, calls, o.tools, |calls|).1)))
  {
    BatchTells(cfg, e, CallsOf(o.response.value), o.tools, |CallsOf(o.response.value)|);
  }

  lemma BatchHonest(cfg: Config, env: nat -> TurnOracle, n: nat, task: Message, e: Engine, blocks: seq<Block>)
    requires env(n).response == Some(blocks) && CallsOf(blocks) != []
    requires PendingHonest(env, n, task, e.messages, Message(Assistant, Blocks(blocks)))
    ensures HonestWindow(task, env, n + 1, AfterBatch(cfg, e, CallsOf(blocks), env(n).tools).messages)
  {
    var o, calls := env(n), CallsOf(blocks);
    var (f, results) := ToolsAfter(cfg, e, calls, o.tools, |calls|);
    ToolsFrame(cfg, e, calls, o.tools, |calls|);
    BatchAnswers(cfg, e, blocks, o.tools);
    BatchIsFromTurn(cfg, e, o);
    AnswerStaysHonest(env, n, cfg.maxContextMessages, task, f.messages,
                      Message(Assistant, Blocks(blocks)), Message(User, Blocks(results)));
  }

  lemma HonestWindowLater(task: Message, env: nat -> TurnOracle, n: nat, ms: seq<Message>)
    requires HonestWindow(task, env, n, ms)
    ensures HonestWindow(task, env, n + 1, ms)
  {
    HonestLater(env, n, ms[1..]);
  }

  lemma CompleteHonest(
      cfg: Config, env: nat -> TurnOracle, n: nat, task: Message, e: Engine, o: CompletionOracle)
    requires HonestWindow(task, env, n, e.messages)
    ensures HonestWindow(task, env, n + 1, Complete(cfg, e, o).0.messages)
  {
    var m := Message(User, Plain(o.prompt));
    CompleteShape(cfg, e, o);
    PlainStaysHonest(env, n, cfg.maxContextMessages, task, e.messages, m);
    HonestWindowLater(task, env, n, e.messages);
    HonestWindowLater(task, env, n, Trimmed(cfg.maxContextMessages, e.messages + [m]));
  }

  /** What the messages are when a response is acted on. */
  ghost predicate Acts(env: nat -> TurnOracle, n: nat, task: Message, ms: seq<Message>, blocks: seq<Block>)
  {
    if CallsOf(blocks) == [] then HonestWindow(task, env, n, ms)
    else PendingHonest(env, n, task, ms, Message(Assistant, Blocks(blocks)))
  }

  lemma AfterResponseHonest(
      cfg: Config, env: nat -> TurnOracle, n: nat, task: Message, e: Engine, blocks: seq<Block>)
    requires env(n).response == Some(blocks) && Acts(env, n, task, e.messages, blocks)
    ensures var (f, out) := AfterResponse(cfg, e, CallsOf(blocks), env(n));
      out == Continue ==> HonestWindow(task, env, n + 1, f.messages)
  {
    if LimitReason(cfg, e.budget, env(n).responseClock).None? {
      if CallsOf(blocks) == [] {
        CompleteHonest(cfg, env, n, task, e, env(n).completion);
      } else {
        BatchHonest(cfg, env, n, task, e, blocks);
      }
    }
  }

  lemma RespondedHonest(cfg: Config, env: nat -> TurnOracle, n: nat, task: Message, e: Engine, blocks: seq<Block>)
    requires HonestWindow(task, env, n, e.messages)
    ensures Acts(env, n, task, Responded(cfg, e, blocks).messages, blocks)
  {
    var reply := Message(Assistant, Blocks(blocks));
    HasCall(blocks);
    if CallsOf(blocks) == [] {
      PlainStaysHonest(env, n, cfg.maxContextMessages, task, e.messages, reply);
    } else {
      CallStaysHonest(env, n, cfg.maxContextMessages, task, e.messages, reply);
    }
  }

  lemma TurnStaysHonest(cfg: Config, env: nat -> TurnOracle, n: nat, task: Message, e: Engine)
    requires HonestWindow(task, env, n, e.messages) && AfterTurn(cfg, e, env(n)).Some?
    ensures HonestWindow(task, env, n + 1, AfterTurn(cfg, e, env(n)).value.messages)
  {
    LimitExactly(cfg, e.budget, env(n).beginClock);
    var blocks := env(n).response.value;
    TurnResponds(cfg, e, env(n));
    RespondedHonest(cfg, env, n, task, e, blocks);
    AfterResponseHonest(cfg, env, n, task, Responded(cfg, e, blocks), blocks);
  }

  // ---------------------------------------------------------------------
  // Runs
  // ---------------------------------------------------------------------

  function TaskOf(opening: Opening): Message { Message(User, Plain(opening.task)) }

  lemma OpenedHonest(cfg: Config, start: Files, opening: Opening, env: nat -> TurnOracle)
    ensures HonestWindow(TaskOf(opening), env, 0, Opened(cfg, start, opening).messages)
  {
    var task, e := TaskOf(opening), Say(cfg, NewEngine(start, opening.clock), TaskOf(opening));
    assert e.messages == [task] && [task][1..] == [];
    var e1 := Planned(cfg, e, opening.planMessage);
    if cfg.planning {
      PlainStaysHonest(env, 0, cfg.maxContextMessages, task, e.messages, Message(User, Plain(opening.planMessage)));
    }
    PlainStaysHonest(env, 0, cfg.maxContextMessages, task, e1.messages,
                     Message(User, Plain("Long-term memory context:\n" + opening.memory)));
  }

  lemma ReachedIsHonest(cfg: Config, start: Files, opening: Opening, env: nat -> TurnOracle, k: nat)
    requires Reaches(cfg, start, opening, env, k)
    ensures HonestWindow(TaskOf(opening), env, k, StateBefore(cfg, start, opening, env, k).value.messages)
  {
    var task := TaskOf(opening);
    var inv := (e: Engine, i: nat) => HonestWindow(task, env, i, e.messages);
    OpenedHonest(cfg, start, opening, env);
    forall e: Engine, i: nat | inv(e, i) && Turns(cfg, env)(e, i).Some?
      ensures inv(Turns(cfg, env)(e, i).value, i + 1)
    {
      TurnStaysHonest(cfg, env, i, task, e);
    }
    IterateInvariant(Opened(cfg, start, opening), Turns(cfg, env), inv, k);
  }

  // ---------------------------------------------------------------------
  // What is sent
  // ---------------------------------------------------------------------

  lemma AfterResponseRecords(cfg: Config, e: Engine, calls: seq<Call>, o: TurnOracle)
    ensures AfterResponse(cfg, e, calls, o).0.journal.models == e.journal.models
  {
    if calls == [] {
      CompleteShape(cfg, e, o.completion);
    } else {
      ToolsFrame(cfg, e, calls, o.tools, |calls|);
    }
  }

  /** A turn that begins within the limits sends the conversation as it is; no other message list is sent. */
  lemma TurnRecords(cfg: Config, e: Engine, o: TurnOracle)
    ensures Turn(cfg, e, o).0.journal.models
      == e.journal.models + if Within(cfg, e.budget, o.beginClock) then [e.messages] else []
  {
    LimitExactly(cfg, e.budget, o.beginClock);
    if Within(cfg, e.budget, o.beginClock) && o.response.Some? {
      TurnResponds(cfg, e, o);
      AfterResponseRecords(cfg, Responded(cfg, e, o.response.value), CallsOf(o.response.value), o);
    }
  }

  /** The conversation before turn i. */
  ghost function MessagesAt(
      cfg: Config, start: Files, opening: Opening, env: nat -> TurnOracle, i: nat): seq<Message>
  {
    if Reaches(cfg, start, opening, env, i) then StateBefore(cfg, start, opening, env, i).value.messages else []
  }

  /** These lists are the conversations before the first turns. */
  ghost predicate SentAre(
      cfg: Config, start: Files, opening: Opening, env: nat -> TurnOracle, models: seq<seq<Message>>)
  {
    forall i | 0 <= i < |models| ::
      Reaches(cfg, start, opening, env, i) && models[i] == MessagesAt(cfg, start, opening, env, i)
  }

  lemma SentNext(
      cfg: Config, start: Files, opening: Opening, env: nat -> TurnOracle, models: seq<seq<Message>>)
    requires SentAre(cfg, start, opening, env, models) && Reaches(cfg, start, opening, env, |models|)
    ensures SentAre(cfg, start, opening, env, models + [MessagesAt(cfg, start, opening, env, |models|)])
  {
  }

  ghost predicate SentBy(cfg: Config, start: Files, opening: Opening, env: nat -> TurnOracle, e: Engine, k: nat)
  {
    |e.journal.models| == k && SentAre(cfg, start, opening, env, e.journal.models)
  }

  ghost predicate SentUpTo(cfg: Config, start: Files, opening: Opening, env: nat -> TurnOracle, k: nat)
  {
    && Reaches(cfg, start, opening, env, k)
    && SentBy(cfg, start, opening, env, StateBefore(cfg, start, opening, env, k).value, k)
  }

  lemma SentUpToNext(cfg: Config, start: Files, opening: Opening, env: nat -> TurnOracle, k: nat)
    requires SentUpTo(cfg, start, opening, env, k) && Reaches(cfg, start, opening, env, k + 1)
    ensures SentUpTo(cfg, start, opening, env, k + 1)
  {
    var e := StateBefore(cfg, start, opening, env, k).value;
    StateStep(cfg, start, opening, env, k);
    TurnRecords(cfg, e, env(k));
    LimitExactly(cfg, e.budget, env(k).beginClock);
    SentNext(cfg, start, opening, env, e.journal.models);
  }

  lemma ReachedEarlier(cfg: Config, start: Files, opening: Opening, env: nat -> TurnOracle, k: nat)
    requires k > 0 && Reaches(cfg, start, opening, env, k)
    ensures Reaches(cfg, start, opening, env, k - 1)
  {
    IterateBefore(Opened(cfg, start, opening), Turns(cfg, env), k - 1, k);
  }

  lemma {:induction false} ReachedSent(cfg: Config, start: Files, opening: Opening, env: nat -> TurnOracle, k: nat)
    requires Reaches(cfg, start, opening, env, k)
    ensures SentUpTo(cfg, start, opening, env, k)
  {
    if k == 0 {
      OpenedSent(cfg, start, opening, env);
    } else {
      ReachedEarlier(cfg, start, opening, env, k);
      ReachedSent(cfg, start, opening, env, k - 1);
      SentUpToNext(cfg, start, opening, env, k - 1);
    }
  }

  lemma OpenedSent(cfg: Config, start: Files, opening: Opening, env: nat -> TurnOracle)
    ensures SentUpTo(cfg, start, opening, env, 0)
  {
  }

  lemma EndSent(cfg: Config, start: Files, opening: Opening, env: nat -> TurnOracle, n: nat)
    requires EndsIn(cfg, start, opening, env, n)
    ensures SentAre(cfg, start, opening, env, Run(cfg, start, opening, env).0.journal.models)
  {
    var e := StateBefore(cfg, start, opening, env, n).value;
    ReachedSent(cfg, start, opening, env, n);
    RunEndState(cfg, start, opening, env, n);
    if n < TurnsOf(cfg) {
      TurnRecords(cfg, e, env(n));
      SentNext(cfg, start, opening, env, e.journal.models);
    }
  }

  /**
   * The i-th list a run sends is the conversation before turn i, and each exchange in it
   * is the response of an earlier turn with what its tools gave, call by call.
   */
  lemma RunSendsWhatHappened(cfg: Config, start: Files, opening: Opening, env: nat -> TurnOracle, i: nat)
    requires i < |Run(cfg, start, opening, env).0.journal.models|
    ensures var ms := Run(cfg, start, opening, env).0.journal.models[i];
      && ms == MessagesAt(cfg, start, opening, env, i)
      && HonestWindow(TaskOf(opening), env, i, ms)
  {
    var n := RunEndsSomewhere(cfg, start, opening, env);
    EndSent(cfg, start, opening, env, n);
    ReachedIsHonest(cfg, start, opening, env, i);
  }

  /** Read off by position: a call in a sent list is answered with the outputs of its own turn. */
  lemma SentCallIsAnswered(cfg: Config, start: Files, opening: Opening, env: nat -> TurnOracle, i: nat, j: nat)
    requires i < |Run(cfg, start, opening, env).0.journal.models|
    requires var ms := Run(cfg, start, opening, env).0.journal.models[i];
      0 < j < |ms| && IsAssistantTool(ms[j])
    ensures var ms := Run(cfg, start, opening, env).0.journal.models[i];
      j + 1 < |ms| && exists k: nat :: k < i && FromTurn(env(k), ms[j], ms[j + 1])
  {
    RunSendsWhatHappened(cfg, start, opening, env, i);
    var ms := Run(cfg, start, opening, env).0.journal.models[i];
    CallIsUnit(ms[1..], j - 1);
  }

  /** In a paired list a call and the message behind it are a unit. */
  lemma {:induction false} CallIsUnit(ms: seq<Message>, j: nat)
    requires Paired(ms) && j < |ms| && IsAssistantTool(ms[j])
    ensures j + 1 < |ms| && [ms[j], ms[j + 1]] in Units(ms)
    decreases |ms|
  {
    if IsPlain(ms[0]) {
      CallIsUnit(ms[1..], j - 1);
    } else if j > 1 {
      CallIsUnit(ms[2..], j - 2);
    }
  }
}
