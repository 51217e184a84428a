// The JS/TS comment stripper: line by line with a carried flag, against one pass of
// a three-state automaton over the whole source.
module JsComments {

  /** The two characters of a token stand at i. */
  predicate TokenAt(s: string, i: nat, a: char, b: char)
  {
    i + 1 < |s| && s[i] == a && s[i + 1] == b
  }

  // ---------------------------------------------------------------------
  // The reference: one automaton over the whole text
  // ---------------------------------------------------------------------

  datatype State = Code | LineComment | BlockComment

  /** The code text from position i on, and the state at the end. */
  function Scan(s: string, i: nat, state: State): (string, State)
    requires i <= |s|
    decreases |s| - i
  {
    if i == |s| then ([], state)
    else if s[i] == '\n' then
      var (rest, end) := Scan(s, i + 1, if state.LineComment? then Code else state);
      ("\n" + rest, end)
    else
      match state
      case LineComment => Scan(s, i + 1, state)
      case BlockComment =>
        if TokenAt(s, i, '*', '/') then Scan(s, i + 2, Code) else Scan(s, i + 1, state)
      case Code =>
        if TokenAt(s, i, '/', '/') then Scan(s, i + 2, LineComment)
        else if TokenAt(s, i, '/', '*') then Scan(s, i + 2, BlockComment)
        else
          var (rest, end) := Scan(s, i + 1, state);
          ([s[i]] + rest, end)
  }

  // ---------------------------------------------------------------------
  // The code
  // ---------------------------------------------------------------------

  // str.find of the closing token, with |line| + 1 for "not found".
  function FindClose(line: string, from: nat): (k: nat)
    ensures k < |line| ==> from <= k && TokenAt(line, k, '*', '/')
    ensures k < |line| || k == |line| + 1
    ensures forall i: nat | from <= i < k :: !TokenAt(line, i, '*', '/')
    decreases |line| + 1 - from
  {
    if from >= |line| then |line| + 1
    else if TokenAt(line, from, '*', '/') then from
    else FindClose(line, from + 1)
  }

  /** One line from a position on, with the carried flag. */
  function StripFrom(line: string, i: nat, inBlock: bool): (string, bool)
    requires i <= |line|
    decreases |line| - i
  {
    if i == |line| then ([], inBlock)
    else if inBlock then
      var end := FindClose(line, i);
      if end > |line| then ([], true) else StripFrom(line, end + 2, false)
    else if TokenAt(line, i, '/', '/') then ([], false)
    else if TokenAt(line, i, '/', '*') then StripFrom(line, i + 2, true)
    else
      var (rest, flag) := StripFrom(line, i + 1, false);
      ([line[i]] + rest, flag)
  }

  method StripJsComments(line: string, inBlockComment: bool) returns (code: string, inBlock: bool)
    ensures (code, inBlock) == StripFrom(line, 0, inBlockComment)
  {
    code, inBlock := "", inBlockComment;
    var index := 0;
    while index < |line|
      invariant index <= |line|
      invariant StripFrom(line, 0, inBlockComment).0 == code + StripFrom(line, index, inBlock).0
      invariant StripFrom(line, 0, inBlockComment).1 == StripFrom(line, index, inBlock).1
      decreases |line| - index
    {
      assert code + [] == code;
      if inBlock {
        var end := FindClose(line, index);
        if end > |line| {
          return code, true;
        }
        index := end + 2;
        inBlock := false;
        continue;
      }
      if TokenAt(line, index, '/', '/') {
        break;
      }
      if TokenAt(line, index, '/', '*') {
        inBlock := true;
        index := index + 2;
        continue;
      }
      ghost var (after, _) := StripFrom(line, index + 1, false);
      assert code + ([line[index]] + after) == code + [line[index]] + after;
      code := code + [line[index]];
      index := index + 1;
    }
    assert code + [] == code;
  }

  /** The stripped lines of a file and the flag after the last one. */
  function StripLines(lines: seq<string>, inBlock: bool): (seq<string>, bool)
  {
    if lines == [] then ([], inBlock)
    else
      var (code, flag) := StripFrom(lines[0], 0, inBlock);
      var (rest, end) := StripLines(lines[1..], flag);
      ([code] + rest, end)
  }

  /** Every line followed by its line break. */
  function Joined(lines: seq<string>): string
  {
    if lines == [] then [] else lines[0] + "\n" + Joined(lines[1..])
  }

  predicate BreakFree(line: string)
  {
    '\n' !in line
  }

  // ---------------------------------------------------------------------
  // The two agree
  // ---------------------------------------------------------------------

  lemma TokenWithinLine(line: string, tail: string, i: nat, a: char, b: char)
    requires i < |line| && b != '\n'
    ensures TokenAt(line + "\n" + tail, i, a, b) <==> TokenAt(line, i, a, b)
  {
    var s := line + "\n" + tail;
    assert s[i] == line[i];
    if i + 1 < |line| {
      assert s[i + 1] == line[i + 1];
    } else {
      assert s[i + 1] == '\n';
    }
  }

  /** A comment to the end of the line shows nothing of it. */
  lemma {:induction false} ScanLineComment(line: string, tail: string, i: nat)
    requires BreakFree(line) && i <= |line|
    ensures var s := line + "\n" + tail; Scan(s, i, LineComment) == Scan(s, |line|, Code)
    decreases |line| - i
  {
    var s := line + "\n" + tail;
    if i == |line| {
      assert s[i] == '\n';
    } else {
      assert s[i] == line[i] && line[i] in line;
      ScanLineComment(line, tail, i + 1);
    }
  }

  /** A block comment runs to its close, or over the end of the line. */
  lemma {:induction false} ScanBlockComment(line: string, tail: string, i: nat)
    requires BreakFree(line) && i <= |line|
    ensures var s, end := line + "\n" + tail, FindClose(line, i);
      Scan(s, i, BlockComment) ==
        if end > |line| then Scan(s, |line|, BlockComment) else Scan(s, end + 2, Code)
    decreases |line| - i
  {
    if i < |line| {
      var s := line + "\n" + tail;
      assert s[i] == line[i] && line[i] in line;
      TokenWithinLine(line, tail, i, '*', '/');
      if !TokenAt(line, i, '*', '/') {
        ScanBlockComment(line, tail, i + 1);
      }
    }
  }

  function Flag(inBlock: bool): State
  {
    if inBlock then BlockComment else Code
  }

  /** Over one line, the automaton does what the stripper does. */
  lemma {:induction false} ScanOneLine(line: string, tail: string, i: nat, inBlock: bool)
    requires BreakFree(line) && i <= |line|
    ensures var s := line + "\n" + tail;
      var (code, flag) := StripFrom(line, i, inBlock);
      var (rest, end) := Scan(s, |line|, Flag(flag));
      Scan(s, i, Flag(inBlock)).0 == code + rest && Scan(s, i, Flag(inBlock)).1 == end
    decreases |line| - i
  {
    var s := line + "\n" + tail;
    if i < |line| {
      assert s[i] == line[i] && line[i] in line;
      TokenWithinLine(line, tail, i, '/', '/');
      TokenWithinLine(line, tail, i, '/', '*');
      if inBlock {
        ScanBlockComment(line, tail, i);
        var end := FindClose(line, i);
        if end <= |line| {
          ScanOneLine(line, tail, end + 2, false);
        }
      } else if TokenAt(line, i, '/', '/') {
        ScanLineComment(line, tail, i + 2);
      } else if TokenAt(line, i, '/', '*') {
        ScanOneLine(line, tail, i + 2, true);
      } else {
        ScanOneLine(line, tail, i + 1, false);
        ScanOneChar(line, tail, i);
        var (code, flag) := StripFrom(line, i + 1, false);
        var rest := Scan(s, |line|, Flag(flag)).0;
        assert [line[i]] + (code + rest) == ([line[i]] + code) + rest;
      }
    }
  }

  /** A character of code outside any comment is kept by both. */
  lemma ScanOneChar(line: string, tail: string, i: nat)
    requires BreakFree(line) && i < |line| && !TokenAt(line, i, '/', '/') && !TokenAt(line, i, '/', '*')
    ensures var (code, flag) := StripFrom(line, i + 1, false);
      StripFrom(line, i, false) == ([line[i]] + code, flag)
    ensures var (rest, end) := Scan(line + "\n" + tail, i + 1, Code);
      Scan(line + "\n" + tail, i, Code) == ([line[i]] + rest, end)
  {
    var s := line + "\n" + tail;
    assert s[i] == line[i] && line[i] in line;
    TokenWithinLine(line, tail, i, '/', '/');
    TokenWithinLine(line, tail, i, '/', '*');
  }

  lemma {:induction false} ScanFromTail(head: string, tail: string, i: nat, state: State)
    requires i <= |tail|
    ensures Scan(head + tail, |head| + i, state) == Scan(tail, i, state)
    decreases |tail| - i
  {
    var s := head + tail;
    if i < |tail| {
      assert s[|head| + i] == tail[i];
      assert i + 1 < |tail| ==> s[|head| + i + 1] == tail[i + 1];
      var next := if tail[i] == '\n' && state.LineComment? then Code else state;
      ScanFromTail(head, tail, i + 1, next);
      if i + 2 <= |tail| {
        ScanFromTail(head, tail, i + 2, Code);
        ScanFromTail(head, tail, i + 2, LineComment);
        ScanFromTail(head, tail, i + 2, BlockComment);
      }
    }
  }

  /**
   * Stripping line by line with the carried flag gives the text, and ends in the
   * state, of one pass of the automaton over the newline-joined source.
   */
  lemma {:induction false} LinewiseIsOnePass(lines: seq<string>, inBlock: bool)
    requires forall line | line in lines :: BreakFree(line)
    ensures var (codes, flag) := StripLines(lines, inBlock);
      Scan(Joined(lines), 0, Flag(inBlock)) == (Joined(codes), Flag(flag))
    decreases lines
  {
    if lines != [] {
      var line, tail := lines[0], Joined(lines[1..]);
      var s := line + "\n" + tail;
      var (code, flag) := StripFrom(line, 0, inBlock);
      assert line in lines;
      ScanOneLine(line, tail, 0, inBlock);
      assert s[|line|] == '\n';
      ScanFromTail(line + "\n", tail, 0, Flag(flag));
      LinewiseIsOnePass(lines[1..], flag);
      var (codes, end) := StripLines(lines[1..], flag);
      assert ([code] + codes)[1..] == codes;
      assert code + ("\n" + Joined(codes)) == Joined([code] + codes);
    } else {
      assert Joined(StripLines(lines, inBlock).0) == [];
    }
  }

  /** A stripped line contains no break, so line numbers are kept. */
  lemma {:induction false} StrippedLineIsALine(line: string, i: nat, inBlock: bool)
    requires BreakFree(line) && i <= |line|
    ensures BreakFree(StripFrom(line, i, inBlock).0)
    decreases |line| - i
  {
    if i < |line| {
      assert line[i] in line;
      if inBlock {
        var end := FindClose(line, i);
        if end <= |line| {
          StrippedLineIsALine(line, end + 2, false);
        }
      } else if TokenAt(line, i, '/', '*') {
        StrippedLineIsALine(line, i + 2, true);
      } else if !TokenAt(line, i, '/', '/') {
        StrippedLineIsALine(line, i + 1, false);
      }
    }
  }
}
