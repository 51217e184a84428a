// The conversation window: greedy trimming of old messages that keeps every
// tool_use / tool_result exchange whole.
module Conversation {
  import opened Text

  type Input = map<string, string>

  datatype Role = User | Assistant

  datatype Block =
    | TextBlock(text: string)
    | ToolUse(id: string, name: string, input: Input)
    | ToolResult(useId: string, output: string, isError: bool)
    | OtherBlock(kind: string)

  datatype Content = Plain(text: string) | Blocks(blocks: seq<Block>)

  datatype Message = Message(role: Role, content: Content)

  predicate IsAssistantTool(m: Message)
  {
    m.role.Assistant? && m.content.Blocks? && exists b | b in m.content.blocks :: b.ToolUse?
  }

  predicate IsToolResult(m: Message)
  {
    m.role.User? && m.content.Blocks? && m.content.blocks != []
    && forall b | b in m.content.blocks :: b.ToolResult?
  }

  // ---------------------------------------------------------------------
  // Units and the window
  // ---------------------------------------------------------------------

  type Unit = seq<Message>

  function Units(ms: seq<Message>): seq<Unit>
  {
    if ms == [] then []
    else if IsAssistantTool(ms[0]) && 1 < |ms| && IsToolResult(ms[1]) then [[ms[0], ms[1]]] + Units(ms[2..])
    else [[ms[0]]] + Units(ms[1..])
  }

  method MessageUnits(messages: seq<Message>) returns (units: seq<Unit>)
    ensures units == Units(messages)
  {
    units := [];
    var index := 0;
    assert messages[0..] == messages;
    while index < |messages|
      invariant Grouped(messages, index, units)
    {
      var current := messages[index];
      GroupedNext(messages, index, units);
      if IsAssistantTool(current) && index + 1 < |messages| && IsToolResult(messages[index + 1]) {
        units := units + [[current, messages[index + 1]]];
        index := index + 2;
        continue;
      }
      units := units + [[current]];
      index := index + 1;
    }
  }

  /** The messages before the index are grouped. */
  ghost predicate Grouped(ms: seq<Message>, index: nat, units: seq<Unit>)
  {
    index <= |ms| && units + Units(ms[index..]) == Units(ms)
  }

  lemma GroupedNext(ms: seq<Message>, i: nat, units: seq<Unit>)
    requires i < |ms| && Grouped(ms, i, units)
    ensures if IsAssistantTool(ms[i]) && i + 1 < |ms| && IsToolResult(ms[i + 1])
      then Grouped(ms, i + 2, units + [[ms[i], ms[i + 1]]]) else Grouped(ms, i + 1, units + [[ms[i]]])
  {
    UnitsAt(ms, i);
  }

  lemma UnitsAt(ms: seq<Message>, i: nat)
    requires i < |ms|
    ensures Units(ms[i..]) ==
      if IsAssistantTool(ms[i]) && i + 1 < |ms| && IsToolResult(ms[i + 1])
      then [[ms[i], ms[i + 1]]] + Units(ms[i + 2..]) else [[ms[i]]] + Units(ms[i + 1..])
  {
    var rest := ms[i..];
    assert rest[1..] == ms[i + 1..];
    assert |rest| > 1 ==> rest[2..] == ms[i + 2..];
  }

  /** The units kept, newest first served, in their old order. */
  function Greedy(units: seq<Unit>, budget: nat): seq<Unit>
  {
    if units == [] then []
    else
      var last := units[|units| - 1];
      if |last| <= budget then Greedy(units[..|units| - 1], budget - |last|) + [last]
      else Greedy(units[..|units| - 1], budget)
  }

  function Limit(maxMessages: int): nat
  {
    if maxMessages < 1 then 1 else maxMessages
  }

  /** ContextWindow(maxMessages).trim(ms) */
  function Trimmed(maxMessages: int, ms: seq<Message>): seq<Message>
  {
    var limit := Limit(maxMessages);
    if |ms| <= limit then ms
    else
      var units := Units(ms[1..]);
      if |Newest(units)| > limit - 1 then ms[..1] + Newest(units)
      else ms[..1] + Flatten(Greedy(units, limit - 1))
  }

  function Newest(units: seq<Unit>): Unit
  {
    if units == [] then [] else units[|units| - 1]
  }

  function Reversed(units: seq<Unit>): (r: seq<Unit>)
    ensures |r| == |units|
    ensures forall i | 0 <= i < |r| :: r[i] == units[|units| - 1 - i]
  {
    seq(|units|, i requires 0 <= i < |units| => units[|units| - 1 - i])
  }

  /** The selection loop: newest unit first, then put back in order. */
  method SelectUnits(units: seq<Unit>, room: nat) returns (selected: seq<Unit>)
    ensures selected == Greedy(units, room)
  {
    var budget := room;
    selected := [];
    var n := |units|;
    assert units[..n] == units;
    while n > 0
      invariant 0 <= n <= |units| && 0 <= budget
      invariant Greedy(units, room) == Greedy(units[..n], budget) + Reversed(selected)
    {
      n := n - 1;
      assert units[..n + 1][..n] == units[..n];
      var unit := units[n];
      if |unit| <= budget {
        assert [unit] + Reversed(selected) == Reversed(selected + [unit]);
        selected := selected + [unit];
        budget := budget - |unit|;
      }
    }
    assert Greedy(units[..0], budget) == [];
    selected := Reversed(selected);
  }

  method Concatenate(units: seq<Unit>) returns (messages: seq<Message>)
    ensures messages == Flatten(units)
  {
    messages := [];
    for i := 0 to |units|
      invariant messages == Flatten(units[..i])
    {
      assert units[..i + 1][..i] == units[..i];
      messages := messages + units[i];
    }
    assert units[..|units|] == units;
  }

  method Trim(maxMessages: int, messages: seq<Message>) returns (kept: seq<Message>)
    ensures kept == Trimmed(maxMessages, messages)
  {
    var limit := Limit(maxMessages);
    if |messages| <= limit {
      return messages;
    }
    var pinned := messages[..1];
    var units := MessageUnits(messages[1..]);
    var budget := limit - 1;
    var newest := Newest(units);
    if newest != [] && |newest| > budget {
      return pinned + newest;
    }
    var selected := SelectUnits(units, budget);
    var recent := Concatenate(selected);
    RecentIsNotEmpty(messages[1..], budget);
    if recent == [] && newest != [] {
      recent := newest;
    }
    kept := pinned + recent;
  }

  lemma RecentIsNotEmpty(ms: seq<Message>, budget: nat)
    requires |Newest(Units(ms))| <= budget
    ensures ms != [] ==> Flatten(Greedy(Units(ms), budget)) != []
  {
    UnitSizes(ms);
    if ms != [] {
      var units := Units(ms);
      var head := Greedy(units[..|units| - 1], budget - |Newest(units)|);
      assert Greedy(units, budget) == head + [Newest(units)];
      FlattenConcat(head, [Newest(units)]);
      FlattenOne(Newest(units));
    }
  }

  /** The messages of a run; _append adds one and trims. */
  class ConversationContext {
    var messages: seq<Message>
    const maxMessages: int

    constructor (maxMessages: int)
      ensures messages == [] && this.maxMessages == maxMessages
    {
      this.maxMessages := maxMessages;
      messages := [];
    }

    method Append(m: Message)
      modifies this
      ensures messages == Trimmed(maxMessages, old(messages) + [m])
    {
      messages := messages + [m];
      messages := Trim(maxMessages, messages);
    }
  }

  // ---------------------------------------------------------------------
  // Size, shape, subsequence, idempotence
  // ---------------------------------------------------------------------

  function Size(units: seq<Unit>): nat
  {
    |Flatten(units)|
  }

  predicate SizedUnits(units: seq<Unit>)
  {
    forall i | 0 <= i < |units| :: 1 <= |units[i]| <= 2
  }

  lemma {:induction false} UnitSizes(ms: seq<Message>)
    ensures SizedUnits(Units(ms)) && Flatten(Units(ms)) == ms
    decreases |ms|
  {
    if ms != [] {
      var n := if IsAssistantTool(ms[0]) && 1 < |ms| && IsToolResult(ms[1]) then 2 else 1;
      var first, rest := ms[..n], Units(ms[n..]);
      UnitSizes(ms[n..]);
      FlattenCons(first, rest);
      assert first == if n == 2 then [ms[0], ms[1]] else [ms[0]];
      assert Units(ms) == [first] + rest;
      assert ms == first + ms[n..];
    }
  }

  lemma {:induction false} GreedyWithNothing(units: seq<Unit>)
    requires SizedUnits(units)
    ensures Greedy(units, 0) == []
  {
    if units != [] {
      GreedyWithNothing(units[..|units| - 1]);
    }
  }

  /** With room for one message, the newest single-message unit is kept, if any. */
  lemma {:induction false} GreedyWithOne(units: seq<Unit>) returns (j: int)
    requires SizedUnits(units)
    ensures -1 <= j < |units|
    ensures Greedy(units, 1) == if j < 0 then [] else [units[j]]
    ensures j >= 0 ==> |units[j]| == 1
    ensures forall i | j < i < |units| :: |units[i]| == 2
  {
    if units == [] {
      j := -1;
    } else {
      var last := |units| - 1;
      if |units[last]| == 1 {
        j := last;
        GreedyWithNothing(units[..last]);
      } else {
        j := GreedyWithOne(units[..last]);
      }
    }
  }

  predicate OnlyExchanges(units: seq<Unit>, from: int, to: int)
  {
    forall i | 0 <= i < |units| && from <= i < to :: |units[i]| == 2
  }

  /**
   * How units are kept within a budget that not all of them fit: the suffix from k,
   * filling the budget or all of it but one, and for j >= 0 the older
   * single-message unit j, past which only exchanges were skipped.
   */
  ghost predicate KeptShape(units: seq<Unit>, kept: seq<Unit>, budget: nat, k: int, j: int)
  {
    && -1 <= j < k <= |units|
    && kept == (if j < 0 then [] else [units[j]]) + units[k..]
    && if j >= 0 then |units[j]| == 1 && Size(units[k..]) + 1 == budget && OnlyExchanges(units, j + 1, k)
       else || Size(units[k..]) == budget
            || (Size(units[k..]) + 1 == budget && OnlyExchanges(units, 0, k))
  }

  lemma KeptShapeSnoc(head: seq<Unit>, last: Unit, kept: seq<Unit>, budget: nat, k: int, j: int)
    requires KeptShape(head, kept, budget, k, j) && 0 <= k
    ensures KeptShape(head + [last], kept + [last], budget + |last|, k, j)
  {
    var units := head + [last];
    assert units[k..] == head[k..] + [last];
    FlattenConcat(head[k..], [last]);
    FlattenOne(last);
  }

  lemma {:induction false} GreedyShape(units: seq<Unit>, budget: nat) returns (k: int, j: int)
    requires SizedUnits(units) && Size(units) > budget
    ensures 0 <= k && KeptShape(units, Greedy(units, budget), budget, k, j)
    ensures |Newest(units)| <= budget ==> k < |units|
    decreases |units|
  {
    var head, last := units[..|units| - 1], units[|units| - 1];
    assert units == head + [last];
    if |last| <= budget {
      k, j := GreedyShape(head, budget - |last|);
      KeptShapeSnoc(head, last, Greedy(head, budget - |last|), budget - |last|, k, j);
    } else {
      k, j := GreedyOverfull(units, budget);
    }
  }

  /** The newest unit is an exchange that does not fit: there is room for one message at most. */
  lemma GreedyOverfull(units: seq<Unit>, budget: nat) returns (k: int, j: int)
    requires SizedUnits(units) && |Newest(units)| > budget
    ensures k == |units| && KeptShape(units, Greedy(units, budget), budget, k, j)
  {
    k := |units|;
    assert units[k..] == [];
    if budget == 0 {
      j := -1;
      GreedyWithNothing(units);
    } else {
      j := GreedyWithOne(units);
    }
  }

  lemma KeptSize(units: seq<Unit>, kept: seq<Unit>, budget: nat, k: int, j: int)
    requires 0 <= k && KeptShape(units, kept, budget, k, j)
    ensures |Flatten(kept)| == budget || |Flatten(kept)| + 1 == budget
    ensures |Flatten(kept)| + 1 == budget ==> j < 0 && OnlyExchanges(units, 0, k)
  {
    if j >= 0 {
      FlattenCons(units[j], units[k..]);
    } else {
      assert kept == units[k..];
    }
  }

  /**
   * When the newest unit fits, trimming that drops messages gives limit messages,
   * or limit - 1 when only exchanges are older than the kept suffix.
   */
  lemma TrimFillsWindow(maxMessages: int, ms: seq<Message>) returns (k: int, j: int)
    requires |ms| > Limit(maxMessages)
    requires |Newest(Units(ms[1..]))| <= Limit(maxMessages) - 1
    ensures var units, budget := Units(ms[1..]), Limit(maxMessages) - 1;
      && 0 <= k < |units|
      && KeptShape(units, Greedy(units, budget), budget, k, j)
      && Trimmed(maxMessages, ms) == ms[..1] + Flatten(Greedy(units, budget))
    ensures var limit, n := Limit(maxMessages), |Trimmed(maxMessages, ms)|;
      && (n == limit || n == limit - 1)
      && (n == limit - 1 ==> j < 0 && OnlyExchanges(Units(ms[1..]), 0, k))
  {
    var units, budget := Units(ms[1..]), Limit(maxMessages) - 1;
    UnitSizes(ms[1..]);
    k, j := GreedyShape(units, budget);
    KeptSize(units, Greedy(units, budget), budget, k, j);
  }

  /** When it does not fit, exactly the pinned message and the newest unit are left. */
  lemma TrimToNewestUnit(maxMessages: int, ms: seq<Message>)
    requires |ms| > Limit(maxMessages)
    requires |Newest(Units(ms[1..]))| > Limit(maxMessages) - 1
    ensures Trimmed(maxMessages, ms) == ms[..1] + Newest(Units(ms[1..]))
    ensures Units(ms[1..]) != [] && Limit(maxMessages) <= 2
  {
    UnitSizes(ms[1..]);
  }

  /** a is b with some elements left out. */
  predicate Subsequence<T(==)>(a: seq<T>, b: seq<T>)
    decreases |b|
  {
    a == [] || (b != [] && (
      || (a[|a| - 1] == b[|b| - 1] && Subsequence(a[..|a| - 1], b[..|b| - 1]))
      || Subsequence(a, b[..|b| - 1])))
  }

  lemma {:induction false} SubsequenceSkip<T>(a: seq<T>, b: seq<T>, c: seq<T>)
    requires Subsequence(a, b)
    ensures Subsequence(a, b + c)
    decreases |c|
  {
    if c == [] {
      assert b + c == b;
    } else {
      SubsequenceSkip(a, b, c[..|c| - 1]);
      assert (b + c)[..|b + c| - 1] == b + c[..|c| - 1];
    }
  }

  lemma {:induction false} SubsequenceAppend<T>(a: seq<T>, b: seq<T>, c: seq<T>)
    requires Subsequence(a, b)
    ensures Subsequence(a + c, b + c)
    decreases |c|
  {
    if c == [] {
      assert a + c == a && b + c == b;
    } else {
      SubsequenceAppend(a, b, c[..|c| - 1]);
      assert (a + c)[..|a + c| - 1] == a + c[..|c| - 1];
      assert (b + c)[..|b + c| - 1] == b + c[..|c| - 1];
    }
  }

  lemma {:induction false} GreedySelects(units: seq<Unit>, budget: nat)
    ensures Subsequence(Flatten(Greedy(units, budget)), Flatten(units))
  {
    if units != [] {
      var head, last := units[..|units| - 1], units[|units| - 1];
      if |last| <= budget {
        GreedySelects(head, budget - |last|);
        var kept := Greedy(head, budget - |last|);
        assert (kept + [last])[..|kept|] == kept;
        SubsequenceAppend(Flatten(kept), Flatten(head), last);
      } else {
        GreedySelects(head, budget);
        SubsequenceSkip(Flatten(Greedy(head, budget)), Flatten(head), last);
      }
    }
  }

  lemma {:induction false} SubsequenceCons<T>(x: seq<T>, a: seq<T>, b: seq<T>)
    requires Subsequence(a, b)
    ensures Subsequence(x + a, x + b)
    decreases |b|
  {
    if a == [] {
      assert x + a == x;
      SubsequenceSelf(x);
      SubsequenceSkip(x, x, b);
    } else {
      var c := b[..|b| - 1];
      assert (x + b)[..|x + b| - 1] == x + c;
      if a[|a| - 1] == b[|b| - 1] && Subsequence(a[..|a| - 1], c) {
        SubsequenceCons(x, a[..|a| - 1], c);
        assert (x + a)[..|x + a| - 1] == x + a[..|a| - 1];
      } else {
        SubsequenceCons(x, a, c);
      }
    }
  }

  lemma {:induction false} SubsequenceSelf<T>(a: seq<T>)
    ensures Subsequence(a, a)
    decreases |a|
  {
    if a != [] {
      SubsequenceSelf(a[..|a| - 1]);
    }
  }

  /** Trimming only leaves messages out. */
  lemma TrimSelects(maxMessages: int, ms: seq<Message>)
    ensures Subsequence(Trimmed(maxMessages, ms), ms)
  {
    var limit := Limit(maxMessages);
    if |ms| <= limit {
      SubsequenceSelf(ms);
    } else {
      var units := Units(ms[1..]);
      UnitSizes(ms[1..]);
      var recent := if |Newest(units)| > limit - 1 then Newest(units) else Flatten(Greedy(units, limit - 1));
      if |Newest(units)| > limit - 1 {
        NewestIsSubsequence(units);
      } else {
        GreedySelects(units, limit - 1);
      }
      SubsequenceCons(ms[..1], recent, ms[1..]);
      assert ms == ms[..1] + ms[1..];
    }
  }

  lemma NewestIsSubsequence(units: seq<Unit>)
    requires units != []
    ensures Subsequence(Newest(units), Flatten(units))
  {
    var head := Flatten(units[..|units| - 1]);
    SubsequenceAppend([], head, Newest(units));
    assert [] + Newest(units) == Newest(units);
  }

  /** Trimming again changes nothing. */
  lemma TrimSettles(maxMessages: int, ms: seq<Message>)
    ensures Trimmed(maxMessages, Trimmed(maxMessages, ms)) == Trimmed(maxMessages, ms)
  {
    var limit := Limit(maxMessages);
    if |ms| > limit {
      var newest := Newest(Units(ms[1..]));
      if |newest| > limit - 1 {
        TrimToNewestUnit(maxMessages, ms);
        NewestIsOneUnit(ms[1..]);
        var kept := ms[..1] + newest;
        assert kept[1..] == newest && kept[..1] == ms[..1];
      } else {
        var _, _ := TrimFillsWindow(maxMessages, ms);
      }
    }
  }

  lemma {:induction false} NewestIsOneUnit(ms: seq<Message>)
    requires ms != []
    ensures Units(Newest(Units(ms))) == [Newest(Units(ms))]
    decreases |ms|
  {
    if IsAssistantTool(ms[0]) && 1 < |ms| && IsToolResult(ms[1]) {
      if |ms| > 2 {
        NewestIsOneUnit(ms[2..]);
      } else {
        assert Units(ms[2..]) == [];
        assert Newest(Units(ms)) == ms;
      }
    } else if |ms| > 1 {
      NewestIsOneUnit(ms[1..]);
    } else {
      assert Newest(Units(ms)) == ms;
    }
  }

  predicate EndsWith(ms: seq<Message>, m: Message)
  {
    ms != [] && ms[|ms| - 1] == m
  }

  lemma EndsWithConcat(a: seq<Message>, b: seq<Message>, m: Message)
    requires EndsWith(b, m)
    ensures EndsWith(a + b, m)
  {
  }

  lemma FlattenEnds(units: seq<Unit>, m: Message)
    requires units != [] && EndsWith(units[|units| - 1], m)
    ensures EndsWith(Flatten(units), m)
  {
    EndsWithConcat(Flatten(units[..|units| - 1]), units[|units| - 1], m);
  }

  lemma NewestEnds(ms: seq<Message>)
    requires ms != []
    ensures EndsWith(Newest(Units(ms)), ms[|ms| - 1])
  {
    var units := Units(ms);
    UnitSizes(ms);
    var newest := units[|units| - 1];
    FlattenEnds(units, newest[|newest| - 1]);
  }

  lemma GreedyKeepsNewest(units: seq<Unit>, budget: nat, m: Message)
    requires EndsWith(Newest(units), m) && |Newest(units)| <= budget
    ensures EndsWith(Flatten(Greedy(units, budget)), m)
  {
    var head := Greedy(units[..|units| - 1], budget - |Newest(units)|);
    assert Greedy(units, budget) == head + [Newest(units)];
    FlattenEnds(head + [Newest(units)], m);
  }

  /** The first message and the newest one always stay. */
  lemma TrimKeepsEnds(maxMessages: int, ms: seq<Message>)
    requires |ms| > 1
    ensures var kept := Trimmed(maxMessages, ms);
      |kept| > 1 && kept[0] == ms[0] && EndsWith(kept[1..], ms[|ms| - 1])
  {
    if |ms| > Limit(maxMessages) {
      var units, m := Units(ms[1..]), ms[|ms| - 1];
      NewestEnds(ms[1..]);
      var recent := if |Newest(units)| > Limit(maxMessages) - 1 then Newest(units)
                    else Flatten(Greedy(units, Limit(maxMessages) - 1));
      if |Newest(units)| <= Limit(maxMessages) - 1 {
        GreedyKeepsNewest(units, Limit(maxMessages) - 1, m);
      }
      assert (ms[..1] + recent)[1..] == recent;
    }
  }

  /**
   * A list within the limit, or of one message, stays as it is. A longer one comes down
   * to the limit, unless its newest unit does not fit behind the pinned message: then
   * these two are left.
   */
  lemma TrimBounds(maxMessages: int, ms: seq<Message>)
    ensures |ms| <= 1 || |ms| <= maxMessages ==> Trimmed(maxMessages, ms) == ms
    ensures |ms| > 1 && |ms| > maxMessages ==>
      var newest, n := Newest(Units(ms[1..])), |Trimmed(maxMessages, ms)|;
      if 1 + |newest| > maxMessages then n == 1 + |newest| else n == maxMessages || n == maxMessages - 1
  {
    if |ms| > Limit(maxMessages) {
      var newest := Newest(Units(ms[1..]));
      UnitSizes(ms[1..]);
      if |newest| > Limit(maxMessages) - 1 {
        TrimToNewestUnit(maxMessages, ms);
      } else {
        var _, _ := TrimFillsWindow(maxMessages, ms);
      }
    }
  }
}
