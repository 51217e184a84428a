// From JS/TS source text to the scope stack: the collector strips comments line by
// line, counts the braces of what is left, and matches its declaration patterns.
module JsSource {
  import opened Text
  import opened JsComments
  import opened JsScopes

  /** The declaration patterns on a stripped line; regular expressions stay abstract. */
  datatype Patterns = Patterns(
    classMatch: string -> Option<string>, interfaceMatch: string -> Option<string>,
    functionMatch: string -> Option<string>, variableMatch: string -> Option<string>,
    methodMatch: string -> Option<string>)

  /** str.count of one character */
  function CountChar(s: string, c: char): nat
  {
    if s == [] then 0 else (if s[0] == c then 1 else 0) + CountChar(s[1..], c)
  }

  lemma {:induction false} CountCharConcat(s: string, t: string, c: char)
    ensures CountChar(s + t, c) == CountChar(s, c) + CountChar(t, c)
  {
    if s == [] {
      assert s + t == t;
    } else {
      CountCharConcat(s[1..], t, c);
      assert (s + t)[1..] == s[1..] + t;
    }
  }

  function StripLeft(s: string): string
  {
    if s != [] && IsSpace(s[0]) then StripLeft(s[1..]) else s
  }

  function StripRight(s: string): string
  {
    if s != [] && IsSpace(s[|s| - 1]) then StripRight(s[..|s| - 1]) else s
  }

  /** str.strip() */
  function Strip(s: string): string
  {
    StripRight(StripLeft(s))
  }

  lemma {:induction false} StripLeftKeeps(s: string, c: char)
    requires !IsSpace(c)
    ensures CountChar(StripLeft(s), c) == CountChar(s, c)
  {
    if s != [] && IsSpace(s[0]) {
      StripLeftKeeps(s[1..], c);
    }
  }

  lemma {:induction false} StripRightKeeps(s: string, c: char)
    requires !IsSpace(c)
    ensures CountChar(StripRight(s), c) == CountChar(s, c)
  {
    if s != [] && IsSpace(s[|s| - 1]) {
      var head := s[..|s| - 1];
      StripRightKeeps(head, c);
      assert s == head + [s[|s| - 1]];
      CountCharConcat(head, [s[|s| - 1]], c);
    }
  }

  /** The body depth counts the braces of the stripped line, the update those of the whole: they agree. */
  lemma StripKeepsBraces(s: string)
    ensures CountChar(Strip(s), '{') == CountChar(s, '{') && CountChar(Strip(s), '}') == CountChar(s, '}')
  {
    StripLeftKeeps(s, '{');
    StripRightKeeps(StripLeft(s), '{');
    StripLeftKeeps(s, '}');
    StripRightKeeps(StripLeft(s), '}');
  }

  /** What the collector sees of a comment-free line. */
  function LineOf(code: string, p: Patterns): Line
  {
    var stripped := Strip(code);
    Line(CountChar(code, '{'), CountChar(code, '}'), stripped == "",
         p.classMatch(stripped), p.interfaceMatch(stripped), p.functionMatch(stripped),
         p.variableMatch(stripped), p.methodMatch(stripped))
  }

  function LinesOf(codes: seq<string>, p: Patterns): seq<Line>
  {
    seq(|codes|, i requires 0 <= i < |codes| => LineOf(codes[i], p))
  }

  /** The comment-free lines of a source. */
  function CodeLines(source: string): seq<string>
  {
    StripLines(SplitLines(source), false).0
  }

  // ---------------------------------------------------------------------
  // The collector over a source
  // ---------------------------------------------------------------------

  lemma {:induction false} StripLinesSnoc(lines: seq<string>, line: string, inBlock: bool)
    ensures var (codes, flag) := StripLines(lines, inBlock);
      var (code, end) := StripFrom(line, 0, flag);
      StripLines(lines + [line], inBlock) == (codes + [code], end)
    decreases |lines|
  {
    if lines == [] {
      var (code, end) := StripFrom(line, 0, inBlock);
      assert lines + [line] == [line] && [line][1..] == [];
      assert StripLines([line][1..], end) == ([], end);
      assert StripLines([line], inBlock) == ([code] + [], end);
      assert [code] + [] == [] + [code];
    } else {
      var (first, flag) := StripFrom(lines[0], 0, inBlock);
      var (rest, last) := StripLines(lines[1..], flag);
      var (code, end) := StripFrom(line, 0, last);
      StripLinesSnoc(lines[1..], line, flag);
      assert (lines + [line])[0] == lines[0] && (lines + [line])[1..] == lines[1..] + [line];
      assert StripLines(lines, inBlock) == ([first] + rest, last);
      assert [first] + (rest + [code]) == [first] + rest + [code];
    }
  }

  /** The collector after the first i lines, with the flag carried on. */
  ghost predicate Collected(raw: seq<string>, p: Patterns, i: nat, frame: Frame, flag: bool)
  {
    i <= |raw| && var (codes, end) := StripLines(raw[..i], false);
      |codes| == i && flag == end && frame == After(LinesOf(codes, p))
  }

  lemma CollectedNext(raw: seq<string>, p: Patterns, i: nat, frame: Frame, flag: bool)
    requires i < |raw| && Collected(raw, p, i, frame, flag)
    ensures Settled(frame)
    ensures var (code, end) := StripFrom(raw[i], 0, flag);
      Collected(raw, p, i + 1, Process(frame, LineOf(code, p), i), end)
  {
    StripLinesSnoc(raw[..i], raw[i], false);
    assert raw[..i + 1] == raw[..i] + [raw[i]];
    AfterNext(StripLines(raw[..i], false).0, StripFrom(raw[i], 0, flag).0, p);
  }

  lemma AfterNext(codes: seq<string>, code: string, p: Patterns)
    ensures var frame := After(LinesOf(codes, p));
      Settled(frame) && After(LinesOf(codes + [code], p)) == Process(frame, LineOf(code, p), |codes|)
  {
    LinesOfSnoc(codes, code, p);
    AfterSnoc(LinesOf(codes, p), LineOf(code, p));
    AfterSettles(LinesOf(codes, p));
  }

  lemma LinesOfSnoc(codes: seq<string>, code: string, p: Patterns)
    ensures LinesOf(codes + [code], p) == LinesOf(codes, p) + [LineOf(code, p)]
  {
  }

  /** collect: the whole loop over the lines of a source. */
  method CollectSource(collector: Collector, source: string, p: Patterns)
    requires collector.Valid() && collector.View() == Frame(0, [])
    modifies collector
    ensures collector.Valid() && collector.View() == After(LinesOf(CodeLines(source), p))
  {
    var raw := SplitLines(source);
    var inBlock := false;
    assert LinesOf([], p) == [];
    for i := 0 to |raw|
      invariant collector.Valid() && Collected(raw, p, i, collector.View(), inBlock)
    {
      CollectedNext(raw, p, i, collector.View(), inBlock);
      var code;
      code, inBlock := StripJsComments(raw[i], inBlock);
      collector.ProcessLine(LineOf(code, p), i);
    }
    assert raw[..|raw|] == raw;
  }

  // ---------------------------------------------------------------------
  // The stack in terms of the text
  // ---------------------------------------------------------------------

  /** Braces opened minus braces closed. */
  function Balance(text: string): int
  {
    CountChar(text, '{') - CountChar(text, '}')
  }

  lemma {:induction false} JoinedSnoc(codes: seq<string>, code: string)
    ensures Joined(codes + [code]) == Joined(codes) + code + "\n"
  {
    if codes == [] {
      assert codes + [code] == [code] && [code][1..] == [];
      assert Joined([code]) == code + "\n" + Joined([]);
    } else {
      JoinedSnoc(codes[1..], code);
      assert (codes + [code])[1..] == codes[1..] + [code];
    }
  }

  /** The running depth is the balance of the code so far. */
  lemma {:induction false} DepthIsBalance(codes: seq<string>, p: Patterns, k: nat)
    requires k <= |codes|
    ensures Depth(LinesOf(codes, p), k) == Balance(Joined(codes[..k]))
    decreases k
  {
    if k > 0 {
      DepthIsBalance(codes, p, k - 1);
      var head, code := codes[..k - 1], codes[k - 1];
      assert codes[..k] == head + [code];
      JoinedSnoc(head, code);
      BalanceSnoc(Joined(head), code);
    }
  }

  lemma BalanceSnoc(text: string, code: string)
    ensures Balance(text + code + "\n") ==
      Balance(text) + CountChar(code, '{') - CountChar(code, '}')
  {
    CountCharConcat(text + code, "\n", '{');
    CountCharConcat(text + code, "\n", '}');
    CountCharConcat(text, code, '{');
    CountCharConcat(text, code, '}');
    assert "\n"[1..] == [];
  }

  /** Alive, read off the comment-free text. */
  predicate AliveInText(codes: seq<string>, t: Pushed)
  {
    t.line < |codes| && Balance(codes[t.line]) > 0
    && forall k | t.line < k <= |codes| :: Balance(Joined(codes[..k])) >= t.scope.bodyDepth
  }

  lemma AliveIsInText(codes: seq<string>, p: Patterns, t: Pushed)
    ensures Alive(LinesOf(codes, p), t) <==> AliveInText(codes, t)
  {
    forall k | 0 <= k <= |codes| ensures Depth(LinesOf(codes, p), k) == Balance(Joined(codes[..k])) {
      DepthIsBalance(codes, p, k);
    }
  }

  lemma {:induction false} SplitLinesAreLines(s: string)
    ensures forall line | line in SplitLines(s) :: BreakFree(line)
    decreases |s|
  {
    if s != [] {
      var k := BreakAt(s, 0);
      assert BreakFree(s[..k]) by {
        assert forall i | 0 <= i < k :: s[..k][i] == s[i] && !IsLineBreak(s[i]);
      }
      if k < |s| {
        SplitLinesAreLines(s[if s[k] == '\r' && k + 1 < |s| && s[k + 1] == '\n' then k + 2 else k + 1..]);
      } else {
        assert s[..k] == s;
      }
    }
  }

  /**
   * For any source: the comment-free lines are what one pass of the comment automaton
   * over the newline-joined lines shows, and the scopes on the stack are exactly those
   * whose line opens more braces than it closes, and whose body depth the balance of
   * the comment-free text has not fallen below at the end of any line since.
   */
  lemma {:induction false} StackOfSource(source: string, p: Patterns)
    ensures Joined(CodeLines(source)) == Scan(Joined(SplitLines(source)), 0, Code).0
    ensures var codes := CodeLines(source);
      After(LinesOf(codes, p)).stack == Filter(AllPushes(LinesOf(codes, p)), t => AliveInText(codes, t))
  {
    SplitLinesAreLines(source);
    LinewiseIsOnePass(SplitLines(source), false);
    var codes := CodeLines(source);
    var lines := LinesOf(codes, p);
    StackIsAlivePushes(lines);
    forall i | 0 <= i < |AllPushes(lines)|
      ensures Alive(lines, AllPushes(lines)[i]) == AliveInText(codes, AllPushes(lines)[i])
    {
      AliveIsInText(codes, p, AllPushes(lines)[i]);
    }
    FilterAgrees(AllPushes(lines), t => Alive(lines, t), t => AliveInText(codes, t));
  }

  /** The line opens more braces than it closes, and at no later line end is the balance of the text below its own. */
  predicate StaysOpen(codes: seq<string>, line: nat)
  {
    line < |codes| && Balance(codes[line]) > 0
    && forall k | line < k <= |codes| :: Balance(Joined(codes[..k])) >= Balance(Joined(codes[..line + 1]))
  }

  lemma BalanceNext(codes: seq<string>, k: nat)
    requires k < |codes|
    ensures Balance(Joined(codes[..k + 1])) == Balance(Joined(codes[..k])) + Balance(codes[k])
  {
    assert codes[..k + 1] == codes[..k] + [codes[k]];
    JoinedSnoc(codes[..k], codes[k]);
    BalanceSnoc(Joined(codes[..k]), codes[k]);
  }

  lemma BodyDepthInText(codes: seq<string>, p: Patterns, t: Pushed)
    requires t in AllPushes(LinesOf(codes, p))
    ensures t.line < |codes|
    ensures t.scope.bodyDepth == BodyDepth(Balance(Joined(codes[..t.line])), LineOf(codes[t.line], p))
  {
    PushDepths(LinesOf(codes, p));
    DepthIsBalance(codes, p, t.line);
  }

  lemma OpeningLine(codes: seq<string>, p: Patterns, line: nat)
    requires line < |codes| && Balance(codes[line]) > 0
    ensures BodyDepth(Balance(Joined(codes[..line])), LineOf(codes[line], p)) == Balance(Joined(codes[..line + 1]))
  {
    BalanceNext(codes, line);
  }

  lemma AliveIsOpen(codes: seq<string>, p: Patterns, t: Pushed)
    requires t in AllPushes(LinesOf(codes, p))
    ensures AliveInText(codes, t) <==> StaysOpen(codes, t.line)
  {
    BodyDepthInText(codes, p, t);
    if Balance(codes[t.line]) > 0 {
      OpeningLine(codes, p, t.line);
      SameBound(codes, t);
    }
  }

  lemma SameBound(codes: seq<string>, t: Pushed)
    requires t.line < |codes| && t.scope.bodyDepth == Balance(Joined(codes[..t.line + 1]))
    ensures AliveInText(codes, t) <==> StaysOpen(codes, t.line)
  {
  }

  /** So, in terms of the text alone: the scopes on the stack are those of the lines that stay open. */
  lemma {:induction false} StackIsOpenLines(source: string, p: Patterns)
    ensures var codes := CodeLines(source);
      After(LinesOf(codes, p)).stack == Filter(AllPushes(LinesOf(codes, p)), (t: Pushed) => StaysOpen(codes, t.line))
  {
    StackOfSource(source, p);
    var codes := CodeLines(source);
    var pushes := AllPushes(LinesOf(codes, p));
    forall i | 0 <= i < |pushes| ensures AliveInText(codes, pushes[i]) == StaysOpen(codes, pushes[i].line) {
      AliveIsOpen(codes, p, pushes[i]);
    }
    FilterAgrees(pushes, t => AliveInText(codes, t), (t: Pushed) => StaysOpen(codes, t.line));
  }
}
