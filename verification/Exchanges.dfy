// The exchange invariant: behind the pinned task message a window is made of plain
// messages and of whole tool exchanges, and trimming keeps it so.
module Exchanges {
  import opened Text
  import opened Conversation

  /** The ids of the tool_use blocks, in order. */
  function UseIds(blocks: seq<Block>): seq<string>
  {
    if blocks == [] then []
    else (if blocks[0].ToolUse? then [blocks[0].id] else []) + UseIds(blocks[1..])
  }

  function ResultIds(blocks: seq<Block>): seq<string>
  {
    if blocks == [] then []
    else (if blocks[0].ToolResult? then [blocks[0].useId] else []) + ResultIds(blocks[1..])
  }

  predicate IsPlain(m: Message)
  {
    !IsAssistantTool(m) && !IsToolResult(m)
  }

  /** The second message answers every call of the first, id by id. */
  predicate IsExchange(call: Message, answer: Message)
  {
    IsAssistantTool(call) && IsToolResult(answer)
    && ResultIds(answer.content.blocks) == UseIds(call.content.blocks)
  }

  predicate Paired(ms: seq<Message>)
  {
    if ms == [] then true
    else if IsPlain(ms[0]) then Paired(ms[1..])
    else 1 < |ms| && IsExchange(ms[0], ms[1]) && Paired(ms[2..])
  }

  /** What every call of the model provider may rely on. */
  predicate Window(task: Message, ms: seq<Message>)
  {
    ms != [] && ms[0] == task && Paired(ms[1..])
  }

  /** Between a model response with tool calls and their results. */
  predicate Pending(task: Message, ms: seq<Message>, call: Message)
  {
    |ms| > 1 && ms[|ms| - 1] == call && IsAssistantTool(call) && Window(task, ms[..|ms| - 1])
  }

  /** What Paired means, position by position. */
  lemma {:induction false} PairedMeans(ms: seq<Message>, i: nat)
    requires Paired(ms) && i < |ms|
    ensures IsAssistantTool(ms[i]) ==> i + 1 < |ms| && IsExchange(ms[i], ms[i + 1])
    ensures IsToolResult(ms[i]) ==> i > 0 && IsExchange(ms[i - 1], ms[i])
    decreases |ms|
  {
    if IsPlain(ms[0]) {
      if i > 0 {
        PairedMeans(ms[1..], i - 1);
      }
    } else if i > 1 {
      PairedMeans(ms[2..], i - 2);
    }
  }

  // ---------------------------------------------------------------------
  // Paired windows and their units
  // ---------------------------------------------------------------------

  predicate WholeUnit(u: Unit)
  {
    (|u| == 1 && IsPlain(u[0])) || (|u| == 2 && IsExchange(u[0], u[1]))
  }

  predicate WholeUnits(units: seq<Unit>)
  {
    forall i | 0 <= i < |units| :: WholeUnit(units[i])
  }

  lemma {:induction false} PairedUnits(ms: seq<Message>)
    requires Paired(ms)
    ensures WholeUnits(Units(ms))
    decreases |ms|
  {
    if ms != [] {
      PairedUnits(if IsPlain(ms[0]) then ms[1..] else ms[2..]);
    }
  }

  lemma {:induction false} PairedConcat(a: seq<Message>, b: seq<Message>)
    requires Paired(a) && Paired(b)
    ensures Paired(a + b)
    decreases |a|
  {
    if a == [] {
      assert a + b == b;
    } else {
      var n := if IsPlain(a[0]) then 1 else 2;
      PairedConcat(a[n..], b);
      assert (a + b)[n..] == a[n..] + b;
    }
  }

  lemma {:induction false} FlattenPaired(units: seq<Unit>)
    requires WholeUnits(units)
    ensures Paired(Flatten(units))
  {
    if units != [] {
      FlattenPaired(units[..|units| - 1]);
      var last := units[|units| - 1];
      assert WholeUnit(last);
      WholeUnitPaired(last);
      PairedConcat(Flatten(units[..|units| - 1]), last);
    }
  }

  lemma WholeUnitPaired(u: Unit)
    requires WholeUnit(u)
    ensures Paired(u)
  {
    if |u| == 1 {
      assert u[1..] == [];
    } else {
      assert u[2..] == [];
    }
  }

  /** A message, or a call and its results, opens a unit of its own behind a paired list. */
  lemma {:induction false} UnitsSnoc(ms: seq<Message>, u: Unit)
    requires Paired(ms)
    requires |u| == 1 || (|u| == 2 && IsAssistantTool(u[0]) && IsToolResult(u[1]))
    ensures Units(ms + u) == Units(ms) + [u]
    decreases |ms|
  {
    var all := ms + u;
    if ms == [] {
      assert all == u;
      assert u[|u|..] == [];
      assert u == if |u| == 1 then [u[0]] else [u[0], u[1]];
    } else {
      var n := if IsPlain(ms[0]) then 1 else 2;
      UnitsSnoc(ms[n..], u);
      assert all[n..] == ms[n..] + u;
    }
  }

  lemma {:induction false} GreedyWhole(units: seq<Unit>, budget: nat)
    requires WholeUnits(units)
    ensures WholeUnits(Greedy(units, budget))
  {
    if units != [] {
      var last := units[|units| - 1];
      GreedyWhole(units[..|units| - 1], if |last| <= budget then budget - |last| else budget);
    }
  }

  /** The units of the one list are units of the other. */
  ghost predicate UnitsAmong(a: seq<Message>, b: seq<Message>)
  {
    forall u | u in Units(a) :: u in Units(b)
  }

  lemma {:induction false} UnitsOfFlatten(units: seq<Unit>)
    requires WholeUnits(units)
    ensures Units(Flatten(units)) == units
  {
    if units != [] {
      var head, last := units[..|units| - 1], units[|units| - 1];
      UnitsOfFlatten(head);
      FlattenPaired(head);
      assert WholeUnit(last);
      UnitsSnoc(Flatten(head), last);
      assert units == head + [last];
    }
  }

  lemma {:induction false} GreedyAmong(units: seq<Unit>, budget: nat)
    ensures forall u | u in Greedy(units, budget) :: u in units
  {
    if units != [] {
      var last := units[|units| - 1];
      GreedyAmong(units[..|units| - 1], if |last| <= budget then budget - |last| else budget);
    }
  }

  /** Trimming behind a paired list keeps the pinned message, a paired list, and the newest unit. */
  lemma TrimKeepsNewest(maxMessages: int, task: Message, ms: seq<Message>, u: Unit) returns (kept: seq<Message>)
    requires Window(task, ms)
    requires |u| == 1 || (|u| == 2 && IsAssistantTool(u[0]) && IsToolResult(u[1]))
    ensures Window(task, kept) && UnitsAmong(kept[1..], ms[1..])
    ensures Trimmed(maxMessages, ms + u) == kept + u
  {
    if |ms + u| <= Limit(maxMessages) {
      kept := ms;
    } else {
      kept := TrimKeepsNewestOverfull(maxMessages, task, ms, u);
    }
  }

  lemma TrimKeepsNewestOverfull(maxMessages: int, task: Message, ms: seq<Message>, u: Unit)
    returns (kept: seq<Message>)
    requires Window(task, ms) && |ms + u| > Limit(maxMessages)
    requires |u| == 1 || (|u| == 2 && IsAssistantTool(u[0]) && IsToolResult(u[1]))
    ensures Window(task, kept) && UnitsAmong(kept[1..], ms[1..])
    ensures Trimmed(maxMessages, ms + u) == kept + u
  {
    var limit := Limit(maxMessages);
    assert (ms + u)[1..] == ms[1..] + u && (ms + u)[..1] == [task];
    UnitsSnoc(ms[1..], u);
    TrimmedIs(maxMessages, task, ms, u, Units(ms[1..]) + [u]);
    if |u| > limit - 1 {
      kept := [task];
    } else {
      kept := KeepBehind(task, ms[1..], u, limit - 1);
    }
  }

  lemma TrimmedIs(maxMessages: int, task: Message, ms: seq<Message>, u: Unit, units: seq<Unit>)
    requires |ms + u| > Limit(maxMessages) && (ms + u)[..1] == [task]
    requires units == Units((ms + u)[1..]) && Newest(units) == u
    ensures Trimmed(maxMessages, ms + u) ==
      if |u| > Limit(maxMessages) - 1 then [task] + u
      else [task] + Flatten(Greedy(units, Limit(maxMessages) - 1))
  {
  }

  lemma KeepBehind(task: Message, body: seq<Message>, u: Unit, budget: nat) returns (kept: seq<Message>)
    requires Paired(body) && |u| <= budget
    ensures Window(task, kept) && UnitsAmong(kept[1..], body)
    ensures [task] + Flatten(Greedy(Units(body) + [u], budget)) == kept + u
  {
    var older := SelectBehind(Units(body), u, budget, body);
    kept := [task] + older;
    assert kept[1..] == older;
    assert [task] + (older + u) == kept + u;
  }

  lemma SelectBehind(units: seq<Unit>, u: Unit, budget: nat, body: seq<Message>) returns (older: seq<Message>)
    requires Paired(body) && units == Units(body)
    requires |u| <= budget
    ensures Paired(older) && UnitsAmong(older, body)
    ensures Flatten(Greedy(units + [u], budget)) == older + u
  {
    PairedUnits(body);
    var selected := Greedy(units, budget - |u|);
    GreedyWhole(units, budget - |u|);
    FlattenPaired(selected);
    older := Flatten(selected);
    UnitsOfFlatten(selected);
    GreedyAmong(units, budget - |u|);
    assert (units + [u])[..|units|] == units;
    assert Greedy(units + [u], budget) == selected + [u];
    assert (selected + [u])[..|selected|] == selected;
  }

  // ---------------------------------------------------------------------
  // The three ways a run appends
  // ---------------------------------------------------------------------

  /** A plain message: user text, or a response without tool calls. */
  lemma AppendPlain(maxMessages: int, task: Message, ms: seq<Message>, m: Message)
    requires Window(task, ms) && IsPlain(m)
    ensures Window(task, Trimmed(maxMessages, ms + [m]))
  {
    var kept := TrimKeepsNewest(maxMessages, task, ms, [m]);
    assert Paired([m]) by { assert [m][1..] == []; }
    PairedConcat(kept[1..], [m]);
    assert (kept + [m])[1..] == kept[1..] + [m];
  }

  /** A response with tool calls opens an exchange. */
  lemma AppendCalls(maxMessages: int, task: Message, ms: seq<Message>, call: Message)
    requires Window(task, ms) && IsAssistantTool(call)
    ensures Pending(task, Trimmed(maxMessages, ms + [call]), call)
  {
    var kept := TrimKeepsNewest(maxMessages, task, ms, [call]);
    assert (kept + [call])[..|kept|] == kept;
  }

  /** The results of exactly those calls close it. */
  lemma AppendResults(maxMessages: int, task: Message, ms: seq<Message>, call: Message, answer: Message)
    requires Pending(task, ms, call) && IsExchange(call, answer)
    ensures Window(task, Trimmed(maxMessages, ms + [answer]))
  {
    var older := ms[..|ms| - 1];
    var u := [call, answer];
    assert ms + [answer] == older + u;
    var kept := TrimKeepsNewest(maxMessages, task, older, u);
    WholeUnitPaired(u);
    PairedConcat(kept[1..], u);
    assert (kept + u)[1..] == kept[1..] + u;
  }
}
