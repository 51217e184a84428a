// Every message list a run sends to the model provider is a well-formed window, and
// converts to a message sequence the wire format allows.
module RunConversation {
  import opened Conversation
  import opened Exchanges
  import opened Wire
  import opened Patching
  import opened RunSpec
  import opened RunLedger

  // ---------------------------------------------------------------------
  // Tool results answer the calls of the response
  // ---------------------------------------------------------------------

  function Ids(calls: seq<Call>): seq<string>
  {
    seq(|calls|, i requires 0 <= i < |calls| => calls[i].id)
  }

  lemma {:induction false} CallIdsInOrder(blocks: seq<Block>)
    ensures Ids(CallsOf(blocks)) == UseIds(blocks)
  {
    if blocks != [] {
      var head, last := blocks[..|blocks| - 1], blocks[|blocks| - 1];
      CallIdsInOrder(head);
      UseIdsSnoc(head, last);
      assert blocks == head + [last];
      assert Ids(CallsOf(blocks)) == Ids(CallsOf(head)) + if last.ToolUse? then [last.id] else [];
    }
  }

  lemma {:induction false} ResultsInOrder(
      cfg: Config, e: Engine, calls: seq<Call>, tools: nat -> ToolOracle, k: nat)
    requires k <= |calls|
    ensures var results := ToolsAfter(cfg, e, calls, tools, k).1;
      && |results| == k && ResultIds(results) == Ids(calls[..k])
      && forall i | 0 <= i < k :: results[i].ToolResult?
    decreases k
  {
    if k > 0 {
      ResultsInOrder(cfg, e, calls, tools, k - 1);
      var before := ToolsAfter(cfg, e, calls, tools, k - 1).1;
      var results := ToolsAfter(cfg, e, calls, tools, k).1;
      ResultIdsSnoc(before, results[k - 1]);
      assert Ids(calls[..k]) == Ids(calls[..k - 1]) + [calls[k - 1].id];
    }
  }

  lemma BatchAnswers(cfg: Config, e: Engine, blocks: seq<Block>, tools: nat -> ToolOracle)
    requires CallsOf(blocks) != []
    ensures var calls := CallsOf(blocks);
      var results := ToolsAfter(cfg, e, calls, tools, |calls|).1;
      IsExchange(Message(Assistant, Blocks(blocks)), Message(User, Blocks(results)))
  {
    var calls := CallsOf(blocks);
    CallIdsInOrder(blocks);
    ResultsInOrder(cfg, e, calls, tools, |calls|);
    assert calls[..|calls|] == calls;
    HasCall(blocks);
  }

  lemma {:induction false} HasCall(blocks: seq<Block>)
    ensures CallsOf(blocks) != [] <==> exists b | b in blocks :: b.ToolUse?
  {
    if blocks != [] {
      var head, last := blocks[..|blocks| - 1], blocks[|blocks| - 1];
      HasCall(head);
      assert blocks == head + [last];
    }
  }

  // ---------------------------------------------------------------------
  // The window invariant
  // ---------------------------------------------------------------------

  /** Before each turn: the conversation is a window, and so was all that was sent. */
  ghost predicate Talks(task: Message, e: Engine)
  {
    Window(task, e.messages) && Sent(task, e)
  }

  ghost predicate Sent(task: Message, e: Engine)
  {
    forall i | 0 <= i < |e.journal.models| :: Window(task, e.journal.models[i])
  }

  lemma BatchTalks(cfg: Config, task: Message, e: Engine, blocks: seq<Block>, tools: nat -> ToolOracle)
    requires Pending(task, e.messages, Message(Assistant, Blocks(blocks))) && CallsOf(blocks) != []
    ensures Window(task, AfterBatch(cfg, e, CallsOf(blocks), tools).messages)
  {
    var calls := CallsOf(blocks);
    var (f, results) := ToolsAfter(cfg, e, calls, tools, |calls|);
    ToolsFrame(cfg, e, calls, tools, |calls|);
    BatchAnswers(cfg, e, blocks, tools);
    AppendResults(cfg.maxContextMessages, task, f.messages, Message(Assistant, Blocks(blocks)),
                  Message(User, Blocks(results)));
  }

  lemma ResponseTalks(cfg: Config, task: Message, e: Engine, blocks: seq<Block>)
    requires Window(task, e.messages)
    ensures var reply := Message(Assistant, Blocks(blocks));
      var f := Say(cfg, e, reply);
      if CallsOf(blocks) == [] then Window(task, f.messages) else Pending(task, f.messages, reply)
  {
    var reply := Message(Assistant, Blocks(blocks));
    HasCall(blocks);
    if CallsOf(blocks) == [] {
      AppendPlain(cfg.maxContextMessages, task, e.messages, reply);
    } else {
      AppendCalls(cfg.maxContextMessages, task, e.messages, reply);
    }
  }

  lemma CompleteTalks(cfg: Config, task: Message, e: Engine, o: CompletionOracle)
    requires Talks(task, e)
    ensures Talks(task, Complete(cfg, e, o).0)
  {
    CompleteShape(cfg, e, o);
    AppendPlain(cfg.maxContextMessages, task, e.messages, Message(User, Plain(o.prompt)));
  }

  lemma AfterResponseTalks(
      cfg: Config, task: Message, e: Engine, blocks: seq<Block>, o: TurnOracle)
    requires Sent(task, e)
    requires if CallsOf(blocks) == [] then Window(task, e.messages)
             else Pending(task, e.messages, Message(Assistant, Blocks(blocks)))
    ensures var (f, out) := AfterResponse(cfg, e, CallsOf(blocks), o);
      Sent(task, f) && (out == Continue ==> Talks(task, f))
  {
    if LimitReason(cfg, e.budget, o.responseClock).None? {
      if CallsOf(blocks) == [] {
        CompleteTalks(cfg, task, e, o.completion);
      } else {
        BatchSends(cfg, task, e, CallsOf(blocks), o.tools);
        BatchTalks(cfg, task, e, blocks, o.tools);
      }
    }
  }

  lemma BatchSends(cfg: Config, task: Message, e: Engine, calls: seq<Call>, tools: nat -> ToolOracle)
    requires Sent(task, e)
    ensures Sent(task, AfterBatch(cfg, e, calls, tools))
  {
    ToolsFrame(cfg, e, calls, tools, |calls|);
  }

  lemma TurnTalks(cfg: Config, task: Message, e: Engine, o: TurnOracle)
    requires Talks(task, e)
    ensures var (f, out) := Turn(cfg, e, o);
      Sent(task, f) && (out == Continue ==> Talks(task, f))
  {
    if LimitReason(cfg, e.budget, o.beginClock).None? && o.response.Some? {
      var e1, blocks := BeginTurn(e), o.response.value;
      ResponseTalks(cfg, task, e1, blocks);
      AfterResponseTalks(cfg, task, Say(cfg, e1, Message(Assistant, Blocks(blocks))), blocks, o);
    }
  }

  lemma {:induction false} LoopTalks(cfg: Config, task: Message, e: Engine, env: nat -> TurnOracle, k: nat)
    requires Talks(task, e)
    ensures Sent(task, Loop(cfg, e, env, k).0)
    decreases cfg.maxTurns - k
  {
    if k < cfg.maxTurns {
      TurnTalks(cfg, task, e, env(k));
      if Turn(cfg, e, env(k)).1 == Continue {
        LoopTalks(cfg, task, Turn(cfg, e, env(k)).0, env, k + 1);
      }
    }
  }

  lemma OpenedTalks(cfg: Config, files: Files, opening: Opening)
    ensures Talks(Message(User, Plain(opening.task)), Opened(cfg, files, opening))
  {
    var task := Message(User, Plain(opening.task));
    var e := Say(cfg, NewEngine(files, opening.clock), task);
    assert e.messages == [task];
    assert Paired(e.messages[1..]);
    var e1 := Planned(cfg, e, opening.planMessage);
    if cfg.planning {
      AppendPlain(cfg.maxContextMessages, task, e.messages, Message(User, Plain(opening.planMessage)));
    }
    AppendPlain(cfg.maxContextMessages, task, e1.messages,
                Message(User, Plain("Long-term memory context:\n" + opening.memory)));
  }

  /**
   * In every run each list of messages sent to the provider starts with the user's
   * first message, and behind it every tool call is answered, id by id, in the
   * message that follows it, whatever max_context_messages is.
   */
  lemma RunSendsWindows(cfg: Config, files: Files, opening: Opening, env: nat -> TurnOracle, i: nat, j: nat)
    requires i < |Run(cfg, files, opening, env).0.journal.models|
    ensures var ms := Run(cfg, files, opening, env).0.journal.models[i];
      && Window(Message(User, Plain(opening.task)), ms)
      && (0 < j < |ms| && IsAssistantTool(ms[j]) ==> j + 1 < |ms| && IsExchange(ms[j], ms[j + 1]))
      && (0 < j < |ms| && IsToolResult(ms[j]) ==> j > 1 && IsExchange(ms[j - 1], ms[j]))
  {
    var task := Message(User, Plain(opening.task));
    OpenedTalks(cfg, files, opening);
    LoopTalks(cfg, task, Opened(cfg, files, opening), env, 0);
    var ms := Run(cfg, files, opening, env).0.journal.models[i];
    assert Window(task, ms);
    if 0 < j < |ms| {
      PairedMeans(ms[1..], j - 1);
    }
  }

  // ---------------------------------------------------------------------
  // Conversion to the wire format
  // ---------------------------------------------------------------------

  ghost predicate AllFromProvider(ms: seq<Message>)
  {
    forall m | m in ms :: FromProvider(m)
  }

  lemma {:induction false} SubsequenceMembers<T>(a: seq<T>, b: seq<T>, x: T)
    requires Subsequence(a, b) && x in a
    ensures x in b
    decreases |b|
  {
    var head := b[..|b| - 1];
    if a[|a| - 1] == b[|b| - 1] && Subsequence(a[..|a| - 1], head) {
      if x != a[|a| - 1] {
        SubsequenceMembers(a[..|a| - 1], head, x);
      }
    } else {
      SubsequenceMembers(a, head, x);
    }
  }

  lemma SayFromProvider(cfg: Config, e: Engine, m: Message)
    requires AllFromProvider(e.messages) && FromProvider(m)
    ensures AllFromProvider(Say(cfg, e, m).messages)
  {
    var all := e.messages + [m];
    TrimSelects(cfg.maxContextMessages, all);
    forall x | x in Say(cfg, e, m).messages ensures FromProvider(x) {
      SubsequenceMembers(Say(cfg, e, m).messages, all, x);
    }
  }

  /** Responses are made of text and tool_use blocks, as the provider decodes them. */
  ghost predicate Decodes(env: nat -> TurnOracle)
  {
    forall k: nat :: env(k).response.Some? ==> forall b | b in env(k).response.value :: !b.ToolResult?
  }

  ghost predicate SentFromProvider(e: Engine)
  {
    forall i | 0 <= i < |e.journal.models| :: AllFromProvider(e.journal.models[i])
  }

  lemma TurnFromProvider(cfg: Config, e: Engine, o: TurnOracle)
    requires AllFromProvider(e.messages) && SentFromProvider(e)
    requires o.response.Some? ==> forall b | b in o.response.value :: !b.ToolResult?
    ensures var (f, out) := Turn(cfg, e, o);
      SentFromProvider(f) && (out == Continue ==> AllFromProvider(f.messages))
  {
    if LimitReason(cfg, e.budget, o.beginClock).None? && o.response.Some? {
      var e1, blocks := BeginTurn(e), o.response.value;
      var reply := Message(Assistant, Blocks(blocks));
      SayFromProvider(cfg, e1, reply);
      AfterResponseFromProvider(cfg, Say(cfg, e1, reply), CallsOf(blocks), o);
    }
  }

  lemma AfterResponseFromProvider(cfg: Config, e: Engine, calls: seq<Call>, o: TurnOracle)
    requires AllFromProvider(e.messages) && SentFromProvider(e)
    ensures var (f, out) := AfterResponse(cfg, e, calls, o);
      SentFromProvider(f) && (out == Continue ==> AllFromProvider(f.messages))
  {
    if LimitReason(cfg, e.budget, o.responseClock).None? {
      if calls == [] {
        CompleteShape(cfg, e, o.completion);
        SayFromProvider(cfg, e, Message(User, Plain(o.completion.prompt)));
      } else {
        var (p, results) := ToolsAfter(cfg, e, calls, o.tools, |calls|);
        ToolsFrame(cfg, e, calls, o.tools, |calls|);
        SayFromProvider(cfg, p, Message(User, Blocks(results)));
      }
    }
  }

  lemma {:induction false} LoopFromProvider(cfg: Config, e: Engine, env: nat -> TurnOracle, k: nat)
    requires AllFromProvider(e.messages) && SentFromProvider(e) && Decodes(env)
    ensures SentFromProvider(Loop(cfg, e, env, k).0)
    decreases cfg.maxTurns - k
  {
    if k < cfg.maxTurns {
      TurnFromProvider(cfg, e, env(k));
      if Turn(cfg, e, env(k)).1 == Continue {
        LoopFromProvider(cfg, Turn(cfg, e, env(k)).0, env, k + 1);
      }
    }
  }

  lemma OpenedFromProvider(cfg: Config, files: Files, opening: Opening)
    ensures AllFromProvider(Opened(cfg, files, opening).messages)
  {
    var e := Say(cfg, NewEngine(files, opening.clock), Message(User, Plain(opening.task)));
    SayFromProvider(cfg, NewEngine(files, opening.clock), Message(User, Plain(opening.task)));
    SayFromProvider(cfg, e, Message(User, Plain(opening.planMessage)));
    SayFromProvider(cfg, Planned(cfg, e, opening.planMessage),
                    Message(User, Plain("Long-term memory context:\n" + opening.memory)));
  }

  /** So everything a run sends goes out as a valid sequence of wire messages. */
  lemma RunSendsValidWire(
      cfg: Config, files: Files, opening: Opening, env: nat -> TurnOracle, system: string, i: nat)
    requires Decodes(env)
    requires i < |Run(cfg, files, opening, env).0.journal.models|
    ensures ValidWire(ToOpenAi(system, Run(cfg, files, opening, env).0.journal.models[i]))
  {
    var task := Message(User, Plain(opening.task));
    RunSendsWindows(cfg, files, opening, env, i, 0);
    OpenedFromProvider(cfg, files, opening);
    LoopFromProvider(cfg, Opened(cfg, files, opening), env, 0);
    var ms := Run(cfg, files, opening, env).0.journal.models[i];
    assert AllFromProvider(ms);
    WindowConvertsToValidWire(system, task, ms);
  }

  /** With room for three messages a run opens with the task, the plan if there is one, and the memory if there is any. */
  lemma OpeningSays(cfg: Config, files: Files, opening: Opening)
    requires cfg.maxContextMessages >= 3
    ensures Opened(cfg, files, opening).messages ==
      [Message(User, Plain(opening.task))]
      + (if cfg.planning then [Message(User, Plain(opening.planMessage))] else [])
      + (if opening.memory != "" then [Message(User, Plain("Long-term memory context:\n" + opening.memory))] else [])
  {
  }
}
