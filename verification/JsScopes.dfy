// The JS/TS collector's scope stack: brace depth, scopes pushed by declarations and
// popped when the depth falls, and the parallel stack of class scopes.
module JsScopes {
  import opened Text

  datatype Scope = Scope(qualifiedName: string, bodyDepth: int)

  /** One comment-free source line: its braces, and what each declaration pattern matched. */
  datatype Line = Line(
    opens: nat, closes: nat, blank: bool,
    classMatch: Option<string>, interfaceMatch: Option<string>, functionMatch: Option<string>,
    variableMatch: Option<string>, methodMatch: Option<string>)

  const CONTROL_WORDS: set<string> :=
    {"catch", "constructor", "for", "function", "if", "import", "return", "switch", "while"}

  function QualifiedName(parent: string, name: string): string
  {
    if parent == "" then name else parent + "." + name
  }

  function Top(scopes: seq<Scope>): string
  {
    if scopes == [] then "" else scopes[|scopes| - 1].qualifiedName
  }

  // ---------------------------------------------------------------------
  // Reference: scopes that remember where they were pushed
  // ---------------------------------------------------------------------

  datatype Pushed = Pushed(scope: Scope, isClass: bool, line: nat)

  datatype Frame = Frame(depth: int, stack: seq<Pushed>)

  function Filter<T>(s: seq<T>, p: T -> bool): seq<T>
  {
    if s == [] then []
    else Filter(s[..|s| - 1], p) + if p(s[|s| - 1]) then [s[|s| - 1]] else []
  }

  function Scopes(stack: seq<Pushed>): seq<Scope>
  {
    seq(|stack|, i requires 0 <= i < |stack| => stack[i].scope)
  }

  function ClassScopes(stack: seq<Pushed>): seq<Scope>
  {
    if stack == [] then []
    else
      var last := stack[|stack| - 1];
      ClassScopes(stack[..|stack| - 1]) + if last.isClass then [last.scope] else []
  }

  function BodyDepth(depth: int, line: Line): int
  {
    if line.opens <= line.closes then depth + 1 else depth + line.opens - line.closes
  }

  function Push(f: Frame, line: Line, n: nat, name: string, isClass: bool): Frame
  {
    f.(stack := f.stack + [Pushed(Scope(name, BodyDepth(f.depth, line)), isClass, n)])
  }

  function CurrentScope(f: Frame): string { Top(Scopes(f.stack)) }
  function CurrentClass(f: Frame): string { Top(ClassScopes(f.stack)) }

  /** The qualified name of a match, when there is one. */
  function Under(parent: string, found: Option<string>): Option<string>
  {
    if found.Some? then Some(QualifiedName(parent, found.value)) else None
  }

  function PushIf(f: Frame, line: Line, n: nat, name: Option<string>, isClass: bool): Frame
  {
    if name.Some? then Push(f, line, n, name.value, isClass) else f
  }

  function FunctionName(f: Frame, found: Option<string>): Option<string>
  {
    if CurrentClass(f) == "" then Under(CurrentScope(f), found) else None
  }

  function MethodName(f: Frame, found: Option<string>): Option<string>
  {
    if CurrentClass(f) != "" && found.Some? && found.value !in CONTROL_WORDS
    then Under(CurrentClass(f), found) else None
  }

  /** The pushes of one line, each guard read after the pushes before it. */
  function Declare(f: Frame, line: Line, n: nat): Frame
  {
    if line.blank then f
    else
      var a := PushIf(f, line, n, Under(CurrentScope(f), line.classMatch), true);
      var b := PushIf(a, line, n, Under(CurrentScope(a), line.interfaceMatch), false);
      var c := PushIf(b, line, n, FunctionName(b, line.functionMatch), false);
      var d := PushIf(c, line, n, FunctionName(c, line.variableMatch), false);
      PushIf(d, line, n, MethodName(d, line.methodMatch), false)
  }

  predicate Within(depth: int, t: Pushed)
  {
    t.scope.bodyDepth <= depth
  }

  /** Popping, as a filter: a scope stays while the depth is at or above its body. */
  function Update(f: Frame, line: Line): Frame
  {
    var depth := f.depth + line.opens - line.closes;
    Frame(depth, Filter(f.stack, t => Within(depth, t)))
  }

  function Process(f: Frame, line: Line, n: nat): Frame
  {
    Update(Declare(f, line, n), line)
  }

  /** The frame after a list of lines. */
  function After(lines: seq<Line>): Frame
  {
    if lines == [] then Frame(0, [])
    else Process(After(lines[..|lines| - 1]), lines[|lines| - 1], |lines| - 1)
  }

  // ---------------------------------------------------------------------
  // Facts about frames
  // ---------------------------------------------------------------------

  predicate Nondecreasing(stack: seq<Pushed>)
  {
    forall i, j | 0 <= i < j < |stack| :: stack[i].scope.bodyDepth <= stack[j].scope.bodyDepth
  }

  predicate Settled(f: Frame)
  {
    Nondecreasing(f.stack) && forall i | 0 <= i < |f.stack| :: Within(f.depth, f.stack[i])
  }

  /** g is f with scopes of line n on top, all with the body depth of the line. */
  predicate Extends(f: Frame, g: Frame, line: Line, n: nat)
  {
    && g.depth == f.depth && f.stack <= g.stack
    && forall i | |f.stack| <= i < |g.stack| ::
      g.stack[i].scope.bodyDepth == BodyDepth(f.depth, line) && g.stack[i].line == n
  }

  lemma PushIfExtends(f: Frame, g: Frame, line: Line, n: nat, name: Option<string>, isClass: bool)
    requires Extends(f, g, line, n)
    ensures Extends(f, PushIf(g, line, n, name, isClass), line, n)
  {
  }

  lemma DeclareExtends(f: Frame, line: Line, n: nat)
    ensures Extends(f, Declare(f, line, n), line, n)
  {
    if !line.blank {
      var a := PushIf(f, line, n, Under(CurrentScope(f), line.classMatch), true);
      PushIfExtends(f, f, line, n, Under(CurrentScope(f), line.classMatch), true);
      var b := PushIf(a, line, n, Under(CurrentScope(a), line.interfaceMatch), false);
      PushIfExtends(f, a, line, n, Under(CurrentScope(a), line.interfaceMatch), false);
      var c := PushIf(b, line, n, FunctionName(b, line.functionMatch), false);
      PushIfExtends(f, b, line, n, FunctionName(b, line.functionMatch), false);
      var d := PushIf(c, line, n, FunctionName(c, line.variableMatch), false);
      PushIfExtends(f, c, line, n, FunctionName(c, line.variableMatch), false);
      PushIfExtends(f, d, line, n, MethodName(d, line.methodMatch), false);
    }
  }

  // ---------------------------------------------------------------------
  // Which scopes a line declares
  // ---------------------------------------------------------------------

  /** The qualified name of a match, as a list of one or none. */
  function Named(parent: string, found: Option<string>): seq<string>
  {
    if found.Some? then [QualifiedName(parent, found.value)] else []
  }

  function LastOr(names: seq<string>, otherwise: string): string
  {
    if names == [] then otherwise else names[|names| - 1]
  }

  /** Outside of classes a function, and a variable inside it; in a class a method of the class. */
  function Members(scope: string, owner: string, line: Line): seq<string>
  {
    if owner == "" then
      var functions := Named(scope, line.functionMatch);
      functions + Named(LastOr(functions, scope), line.variableMatch)
    else if line.methodMatch.Some? && line.methodMatch.value !in CONTROL_WORDS then
      [owner + "." + line.methodMatch.value]
    else []
  }

  /**
   * The class scopes and the other scopes that a line declares inside a scope and a
   * class, either of them "" for none: a class, an interface inside what is open then,
   * and the members, of the class just declared if there is one.
   */
  function DeclaredBy(scope: string, owner: string, line: Line): (seq<string>, seq<string>)
  {
    var classes := Named(scope, line.classMatch);
    var interfaces := Named(LastOr(classes, scope), line.interfaceMatch);
    (classes, interfaces + Members(LastOr(interfaces, LastOr(classes, scope)), LastOr(classes, owner), line))
  }

  function Pushes(names: seq<string>, bodyDepth: int, isClass: bool, n: nat): seq<Pushed>
  {
    seq(|names|, i requires 0 <= i < |names| => Pushed(Scope(names[i], bodyDepth), isClass, n))
  }

  /** g is f with these scopes on top. */
  predicate Adds(f: Frame, g: Frame, names: seq<string>, line: Line, isClass: bool, n: nat)
  {
    && g.depth == f.depth
    && g.stack == f.stack + Pushes(names, BodyDepth(f.depth, line), isClass, n)
    && CurrentScope(g) == LastOr(names, CurrentScope(f))
    && CurrentClass(g) == if isClass then LastOr(names, CurrentClass(f)) else CurrentClass(f)
  }

  lemma PushAdds(f: Frame, line: Line, n: nat, name: Option<string>, isClass: bool)
    ensures Adds(f, PushIf(f, line, n, name, isClass), if name.Some? then [name.value] else [], line, isClass, n)
  {
    if name.Some? {
      var p := Pushed(Scope(name.value, BodyDepth(f.depth, line)), isClass, n);
      assert Pushes([name.value], BodyDepth(f.depth, line), isClass, n) == [p];
      PushedOne(f.stack, p);
    } else {
      assert f.stack + Pushes([], BodyDepth(f.depth, line), isClass, n) == f.stack;
    }
  }

  lemma AddsBoth(f: Frame, g: Frame, h: Frame, a: seq<string>, b: seq<string>, line: Line, n: nat)
    requires Adds(f, g, a, line, false, n) && Adds(g, h, b, line, false, n)
    ensures Adds(f, h, a + b, line, false, n)
  {
    var depth := BodyDepth(f.depth, line);
    assert Pushes(a + b, depth, false, n) == Pushes(a, depth, false, n) + Pushes(b, depth, false, n);
  }

  lemma MembersExactly(f: Frame, line: Line, n: nat)
    ensures var c := PushIf(f, line, n, FunctionName(f, line.functionMatch), false);
      var d := PushIf(c, line, n, FunctionName(c, line.variableMatch), false);
      Adds(f, PushIf(d, line, n, MethodName(d, line.methodMatch), false),
           Members(CurrentScope(f), CurrentClass(f), line), line, false, n)
  {
    var functionName := FunctionName(f, line.functionMatch);
    var c := PushIf(f, line, n, functionName, false);
    var variableName := FunctionName(c, line.variableMatch);
    var d := PushIf(c, line, n, variableName, false);
    var methodName := MethodName(d, line.methodMatch);
    var x, y, z := if functionName.Some? then [functionName.value] else [], if variableName.Some? then [variableName.value] else [],
      if methodName.Some? then [methodName.value] else [];
    PushAdds(f, line, n, functionName, false);
    PushAdds(c, line, n, variableName, false);
    PushAdds(d, line, n, methodName, false);
    AddsBoth(f, c, d, x, y, line, n);
    AddsBoth(f, d, PushIf(d, line, n, methodName, false), x + y, z, line, n);
    assert x + y + z == Members(CurrentScope(f), CurrentClass(f), line);
  }

  /** A line declares exactly those scopes, with the body depth of the line; a blank one none. */
  lemma DeclareExactly(f: Frame, line: Line, n: nat)
    ensures var (classes, others) := DeclaredBy(CurrentScope(f), CurrentClass(f), line);
      var depth := BodyDepth(f.depth, line);
      Declare(f, line, n).stack ==
        if line.blank then f.stack else f.stack + Pushes(classes, depth, true, n) + Pushes(others, depth, false, n)
  {
    if !line.blank {
      var className := Under(CurrentScope(f), line.classMatch);
      var a := PushIf(f, line, n, className, true);
      var interfaceName := Under(CurrentScope(a), line.interfaceMatch);
      var b := PushIf(a, line, n, interfaceName, false);
      PushAdds(f, line, n, className, true);
      PushAdds(a, line, n, interfaceName, false);
      MembersExactly(b, line, n);
      AddsBoth(a, b, Declare(f, line, n), Named(CurrentScope(a), line.interfaceMatch),
               Members(CurrentScope(b), CurrentClass(b), line), line, n);
    }
  }

  /** The kept scopes are the bottom of the stack. */
  ghost predicate Splits(kept: seq<Pushed>, stack: seq<Pushed>, depth: int)
  {
    && kept <= stack
    && (forall i | 0 <= i < |kept| :: Within(depth, kept[i]))
    && (forall i | |kept| <= i < |stack| :: !Within(depth, stack[i]))
  }

  lemma {:induction false} FilterPrefix(stack: seq<Pushed>, depth: int)
    requires Nondecreasing(stack)
    ensures Splits(Filter(stack, t => Within(depth, t)), stack, depth)
  {
    if stack != [] {
      var last := |stack| - 1;
      FilterPrefix(stack[..last], depth);
      var kept := Filter(stack[..last], t => Within(depth, t));
      if Within(depth, stack[last]) {
        assert |kept| == last;
      }
    }
  }

  lemma ExtensionIsNondecreasing(f: Frame, g: Frame, line: Line, n: nat)
    requires Settled(f) && Extends(f, g, line, n)
    ensures Nondecreasing(g.stack)
  {
    forall i, j | 0 <= i < j < |g.stack| ensures g.stack[i].scope.bodyDepth <= g.stack[j].scope.bodyDepth {
      if i < |f.stack| {
        assert g.stack[i] == f.stack[i] && Within(f.depth, f.stack[i]);
      }
      if j < |f.stack| {
        assert g.stack[j] == f.stack[j];
      }
    }
  }

  lemma UpdateSettles(g: Frame, line: Line)
    requires Nondecreasing(g.stack)
    ensures Settled(Update(g, line))
  {
    FilterPrefix(g.stack, g.depth + line.opens - line.closes);
  }

  /** What an update leaves of the stack. */
  lemma KeptScopes(f: Frame, line: Line) returns (kept: seq<Pushed>)
    requires Nondecreasing(f.stack)
    ensures Splits(kept, f.stack, f.depth + line.opens - line.closes)
    ensures Update(f, line) == Frame(f.depth + line.opens - line.closes, kept)
  {
    FilterPrefix(f.stack, f.depth + line.opens - line.closes);
    kept := Update(f, line).stack;
  }

  lemma ProcessSettles(f: Frame, line: Line, n: nat)
    requires Settled(f)
    ensures Settled(Process(f, line, n))
    ensures Nondecreasing(Declare(f, line, n).stack)
  {
    DeclareExtends(f, line, n);
    ExtensionIsNondecreasing(f, Declare(f, line, n), line, n);
    UpdateSettles(Declare(f, line, n), line);
  }

  lemma {:induction false} AfterSettles(lines: seq<Line>)
    ensures Settled(After(lines))
  {
    if lines != [] {
      AfterSettles(lines[..|lines| - 1]);
      ProcessSettles(After(lines[..|lines| - 1]), lines[|lines| - 1], |lines| - 1);
    }
  }

  // ---------------------------------------------------------------------
  // Which scopes are on the stack, in terms of the whole history
  // ---------------------------------------------------------------------

  /** The brace depth after k lines. */
  function Depth(lines: seq<Line>, k: nat): int
    requires k <= |lines|
  {
    if k == 0 then 0 else Depth(lines, k - 1) + lines[k - 1].opens - lines[k - 1].closes
  }

  /** Every scope ever pushed, in order. */
  function AllPushes(lines: seq<Line>): seq<Pushed>
  {
    if lines == [] then []
    else
      var before := After(lines[..|lines| - 1]);
      AllPushes(lines[..|lines| - 1])
        + Declare(before, lines[|lines| - 1], |lines| - 1).stack[|before.stack|..]
  }

  /** The declaring line opens more braces than it closes, and no later depth fell below the body. */
  predicate Alive(lines: seq<Line>, t: Pushed)
  {
    t.line < |lines|
    && lines[t.line].opens > lines[t.line].closes
    && StaysUp(lines, t, |lines|)
  }

  /** No depth after the declaring line and up to line n is below the body. */
  predicate StaysUp(lines: seq<Line>, t: Pushed, n: nat)
    requires n <= |lines|
  {
    forall k | t.line < k <= n :: Depth(lines, k) >= t.scope.bodyDepth
  }

  lemma {:induction false} DepthPrefix(lines: seq<Line>, more: seq<Line>, k: nat)
    requires k <= |lines|
    ensures Depth(lines + more, k) == Depth(lines, k)
  {
    if k > 0 {
      DepthPrefix(lines, more, k - 1);
    }
  }

  lemma DepthSnoc(head: seq<Line>, line: Line)
    ensures Depth(head + [line], |head| + 1) == Depth(head, |head|) + line.opens - line.closes
  {
    DepthPrefix(head, [line], |head|);
    assert (head + [line])[|head|] == line;
  }

  lemma {:induction false} AfterDepth(lines: seq<Line>)
    ensures After(lines).depth == Depth(lines, |lines|)
  {
    if lines != [] {
      var head, line := lines[..|lines| - 1], lines[|lines| - 1];
      assert lines == head + [line];
      AfterDepth(head);
      DepthSnoc(head, line);
      OneLineDeeper(head, line);
    }
  }

  lemma OneLineDeeper(head: seq<Line>, line: Line)
    ensures After(head + [line]).depth == After(head).depth + line.opens - line.closes
  {
    assert (head + [line])[..|head|] == head;
    DeclareExtends(After(head), line, |head|);
  }

  lemma {:induction false} FilterAgrees<T>(s: seq<T>, p: T -> bool, q: T -> bool)
    requires forall i | 0 <= i < |s| :: p(s[i]) == q(s[i])
    ensures Filter(s, p) == Filter(s, q)
  {
    if s != [] {
      FilterAgrees(s[..|s| - 1], p, q);
    }
  }

  lemma {:induction false} FilterTwice<T>(s: seq<T>, p: T -> bool, q: T -> bool, both: T -> bool)
    requires forall i | 0 <= i < |s| :: both(s[i]) == (p(s[i]) && q(s[i]))
    ensures Filter(Filter(s, p), q) == Filter(s, both)
  {
    if s != [] {
      var head, last := s[..|s| - 1], s[|s| - 1];
      FilterTwice(head, p, q, both);
      if p(last) {
        assert Filter(s, p)[..|Filter(head, p)|] == Filter(head, p);
      } else {
        assert Filter(s, p) == Filter(head, p);
      }
    }
  }

  lemma {:induction false} FilterConcat<T>(a: seq<T>, b: seq<T>, p: T -> bool)
    ensures Filter(a + b, p) == Filter(a, p) + Filter(b, p)
  {
    if b == [] {
      assert a + b == a;
    } else {
      FilterConcat(a, b[..|b| - 1], p);
      assert (a + b)[..|a + b| - 1] == a + b[..|b| - 1];
    }
  }

  lemma {:induction false} PushLines(lines: seq<Line>)
    ensures forall i | 0 <= i < |AllPushes(lines)| :: AllPushes(lines)[i].line < |lines|
  {
    if lines != [] {
      var head := lines[..|lines| - 1];
      PushLines(head);
      DeclareExtends(After(head), lines[|lines| - 1], |head|);
    }
  }

  /** Every scope ever pushed has the body depth of its line. */
  lemma {:induction false} PushDepths(lines: seq<Line>)
    ensures forall t | t in AllPushes(lines) ::
      t.line < |lines| && t.scope.bodyDepth == BodyDepth(Depth(lines, t.line), lines[t.line])
  {
    if lines != [] {
      var head, line := lines[..|lines| - 1], lines[|lines| - 1];
      assert lines == head + [line];
      PushDepths(head);
      AfterDepth(head);
      DeclareExtends(After(head), line, |head|);
      forall t | t in AllPushes(lines)
        ensures t.line < |lines| && t.scope.bodyDepth == BodyDepth(Depth(lines, t.line), lines[t.line])
      {
        if t in AllPushes(head) {
          DepthPrefix(head, [line], t.line);
        } else {
          DepthPrefix(head, [line], |head|);
        }
      }
    }
  }

  lemma AliveStep(head: seq<Line>, line: Line, t: Pushed)
    requires t.line < |head|
    ensures Alive(head + [line], t)
      <==> Alive(head, t) && Within(Depth(head, |head|) + line.opens - line.closes, t)
  {
    assert (head + [line])[t.line] == head[t.line];
    StaysUpBefore(head, line, t);
    DepthSnoc(head, line);
    StaysUpNext(head + [line], t, |head|);
  }

  lemma StaysUpBefore(head: seq<Line>, line: Line, t: Pushed)
    ensures StaysUp(head + [line], t, |head|) <==> StaysUp(head, t, |head|)
  {
    forall k | 0 <= k <= |head| ensures Depth(head + [line], k) == Depth(head, k) {
      DepthPrefix(head, [line], k);
    }
  }

  lemma StaysUpNext(lines: seq<Line>, t: Pushed, n: nat)
    requires t.line <= n < |lines|
    ensures StaysUp(lines, t, n + 1) <==> StaysUp(lines, t, n) && Depth(lines, n + 1) >= t.scope.bodyDepth
  {
  }

  /** A scope of the line itself stays on the stack exactly if the line opens more than it closes. */
  lemma AliveAtOnce(head: seq<Line>, line: Line, t: Pushed)
    requires t.line == |head| && t.scope.bodyDepth == BodyDepth(Depth(head, |head|), line)
    ensures Alive(head + [line], t) <==> Within(Depth(head, |head|) + line.opens - line.closes, t)
  {
    DepthSnoc(head, line);
    assert (head + [line])[|head|] == line;
  }

  /** The stack is what is alive of the pushes. */
  predicate HoldsAlive(f: Frame, lines: seq<Line>, pushes: seq<Pushed>)
  {
    f.stack == Filter(pushes, t => Alive(lines, t))
  }

  /** One line: popping by the new depth keeps the pushes that are alive after it. */
  lemma {:induction false} UpdateKeepsAlive(head: seq<Line>, line: Line, f: Frame, g: Frame, older: seq<Pushed>)
    requires Extends(f, g, line, |head|) && f.depth == Depth(head, |head|)
    requires forall i | 0 <= i < |older| :: older[i].line < |head|
    requires HoldsAlive(f, head, older)
    ensures Update(g, line).stack == Filter(older + g.stack[|f.stack|..], t => Alive(head + [line], t))
  {
    var lines, added := head + [line], g.stack[|f.stack|..];
    var depth := g.depth + line.opens - line.closes;
    assert g.stack == f.stack + added;
    FilterConcat(f.stack, added, t => Within(depth, t));
    OlderStayAlive(head, line, depth, older);
    AddedAreAlive(head, line, depth, added);
    FilterConcat(older, added, t => Alive(lines, t));
  }

  lemma {:induction false} OlderStayAlive(head: seq<Line>, line: Line, depth: int, older: seq<Pushed>)
    requires depth == Depth(head, |head|) + line.opens - line.closes
    requires forall i | 0 <= i < |older| :: older[i].line < |head|
    ensures Filter(Filter(older, t => Alive(head, t)), t => Within(depth, t))
      == Filter(older, t => Alive(head + [line], t))
  {
    forall i | 0 <= i < |older|
      ensures Alive(head + [line], older[i]) == (Alive(head, older[i]) && Within(depth, older[i]))
    {
      AliveStep(head, line, older[i]);
    }
    FilterTwice(older, t => Alive(head, t), t => Within(depth, t), t => Alive(head + [line], t));
  }

  lemma {:induction false} AddedAreAlive(head: seq<Line>, line: Line, depth: int, added: seq<Pushed>)
    requires depth == Depth(head, |head|) + line.opens - line.closes
    requires forall i | 0 <= i < |added| ::
      added[i].line == |head| && added[i].scope.bodyDepth == BodyDepth(Depth(head, |head|), line)
    ensures Filter(added, t => Within(depth, t)) == Filter(added, t => Alive(head + [line], t))
  {
    forall i | 0 <= i < |added| ensures Alive(head + [line], added[i]) == Within(depth, added[i]) {
      AliveAtOnce(head, line, added[i]);
    }
    FilterAgrees(added, t => Within(depth, t), t => Alive(head + [line], t));
  }

  /**
   * The stack after any number of lines is exactly the scopes, of all those ever
   * pushed, whose line opened more braces than it closed and whose body depth the
   * running depth has not fallen below since.
   */
  lemma {:induction false} StackIsAlivePushes(lines: seq<Line>)
    ensures After(lines).stack == Filter(AllPushes(lines), t => Alive(lines, t))
  {
    if lines != [] {
      var head, line := lines[..|lines| - 1], lines[|lines| - 1];
      assert lines == head + [line];
      AfterDepth(head);
      DeclareExtends(After(head), line, |head|);
      StackIsAlivePushes(head);
      PushLines(head);
      UpdateKeepsAlive(head, line, After(head), Declare(After(head), line, |head|), AllPushes(head));
      AfterSnoc(head, line);
    }
  }

  lemma AfterSnoc(head: seq<Line>, line: Line)
    ensures var declared := Declare(After(head), line, |head|);
      && After(head + [line]) == Update(declared, line)
      && (|After(head).stack| <= |declared.stack| ==>
            AllPushes(head + [line]) == AllPushes(head) + declared.stack[|After(head).stack|..])
  {
    assert (head + [line])[..|head|] == head;
  }

  // ---------------------------------------------------------------------
  // The collector
  // ---------------------------------------------------------------------

  /** The collector keeps plain scopes; pushed is the same stack with its history. */
  class Collector {
    var scopes: seq<Scope>
    var classes: seq<Scope>
    var braceDepth: int
    ghost var pushed: seq<Pushed>

    ghost predicate Valid()
      reads this
    {
      scopes == Scopes(pushed) && classes == ClassScopes(pushed)
    }

    ghost function View(): Frame
      reads this
    {
      Frame(braceDepth, pushed)
    }

    constructor ()
      ensures Valid() && View() == Frame(0, [])
    {
      scopes, classes, braceDepth, pushed := [], [], 0, [];
    }

    method PushScope(name: string, line: Line, classScope: bool, ghost n: nat)
      requires Valid()
      modifies this
      ensures Valid() && View() == Push(old(View()), line, n, name, classScope)
    {
      var scope := Scope(name, BodyDepth(braceDepth, line));
      scopes := scopes + [scope];
      if classScope {
        classes := classes + [scope];
      }
      PushedOne(pushed, Pushed(scope, classScope, n));
      pushed := pushed + [Pushed(scope, classScope, n)];
    }

    method PushMatch(name: Option<string>, line: Line, classScope: bool, ghost n: nat)
      requires Valid()
      modifies this
      ensures Valid() && View() == PushIf(old(View()), line, n, name, classScope)
    {
      if name.Some? {
        PushScope(name.value, line, classScope, n);
      }
    }

    method PushType(found: Option<string>, line: Line, classScope: bool, ghost n: nat)
      requires Valid()
      modifies this
      ensures Valid() && View() == PushIf(old(View()), line, n, Under(CurrentScope(old(View())), found), classScope)
    {
      PushMatch(Under(Top(scopes), found), line, classScope, n);
    }

    method PushFunction(found: Option<string>, line: Line, ghost n: nat)
      requires Valid()
      modifies this
      ensures Valid() && View() == PushIf(old(View()), line, n, FunctionName(old(View()), found), false)
    {
      if Top(classes) == "" {
        PushMatch(Under(Top(scopes), found), line, false, n);
      }
    }

    method PushMethod(found: Option<string>, line: Line, ghost n: nat)
      requires Valid()
      modifies this
      ensures Valid() && View() == PushIf(old(View()), line, n, MethodName(old(View()), found), false)
    {
      if found.Some? && Top(classes) != "" && found.value !in CONTROL_WORDS {
        PushMatch(Under(Top(classes), found), line, false, n);
      }
    }

    method CollectSymbols(line: Line, ghost n: nat)
      requires Valid() && !line.blank
      modifies this
      ensures Valid() && View() == Declare(old(View()), line, n)
    {
      PushType(line.classMatch, line, true, n);
      PushType(line.interfaceMatch, line, false, n);
      PushFunction(line.functionMatch, line, n);
      PushFunction(line.variableMatch, line, n);
      PushMethod(line.methodMatch, line, n);
    }

    method PopScope(ghost kept: seq<Pushed>, ghost all: seq<Pushed>)
      requires Popping(kept, all, braceDepth, scopes, classes, pushed)
      requires scopes != [] && braceDepth < scopes[|scopes| - 1].bodyDepth
      modifies this`scopes, this`classes, this`pushed
      ensures Popping(kept, all, braceDepth, scopes, classes, pushed) && |scopes| < |old(scopes)|
    {
      var scope := scopes[|scopes| - 1];
      UnpoppedStep(kept, scopes, classes, pushed, all, braceDepth);
      ghost var left := WithoutTop(classes, scope);
      scopes := scopes[..|scopes| - 1];
      if classes != [] && classes[|classes| - 1] == scope {
        classes := classes[..|classes| - 1];
      }
      assert classes == left;
      pushed := pushed[..|pushed| - 1];
    }

    /**
     * The pop loop equals the filter, and the class stack, popped whenever its top
     * equals the popped scope by value, ends as the class scopes of what is left.
     */
    method PopScopes(ghost kept: seq<Pushed>)
      requires Valid()
      requires Splits(kept, pushed, braceDepth)
      modifies this`scopes, this`classes, this`pushed
      ensures Valid() && pushed == kept
    {
      ghost var all := pushed;
      ClassScopesPrefix(kept, pushed);
      while scopes != [] && braceDepth < scopes[|scopes| - 1].bodyDepth
        invariant Popping(kept, all, braceDepth, scopes, classes, pushed)
        decreases |scopes|
      {
        PopScope(kept, all);
      }
      UnpoppedEnd(kept, scopes, classes, pushed, all, braceDepth);
    }

    method UpdateScopes(line: Line)
      requires Valid() && Nondecreasing(pushed)
      modifies this
      ensures Valid() && View() == Update(old(View()), line)
    {
      braceDepth := braceDepth + line.opens - line.closes;
      ghost var kept := KeptScopes(old(View()), line);
      PopScopes(kept);
    }

    /** One line of collect, imports and calls aside. */
    method ProcessLine(line: Line, ghost n: nat)
      requires Valid() && Settled(View())
      modifies this
      ensures Valid() && View() == Process(old(View()), line, n) && Settled(View())
    {
      ProcessSettles(View(), line, n);
      if !line.blank {
        CollectSymbols(line, n);
      }
      UpdateScopes(line);
    }

    /** After all lines: the alive scopes, and among them the class scopes. */
    method Collect(lines: seq<Line>)
      requires Valid() && View() == Frame(0, [])
      modifies this
      ensures Valid() && View() == After(lines)
      ensures scopes == Scopes(Filter(AllPushes(lines), t => Alive(lines, t)))
      ensures classes == ClassScopes(Filter(AllPushes(lines), t => Alive(lines, t)))
    {
      for i := 0 to |lines|
        invariant Valid() && View() == After(lines[..i]) && Settled(View())
      {
        assert lines[..i + 1][..i] == lines[..i];
        ProcessLine(lines[i], i);
      }
      assert lines[..|lines|] == lines;
      StackIsAlivePushes(lines);
    }
  }

  lemma PushedOne(stack: seq<Pushed>, p: Pushed)
    ensures Scopes(stack + [p]) == Scopes(stack) + [p.scope]
    ensures ClassScopes(stack + [p]) == ClassScopes(stack) + if p.isClass then [p.scope] else []
  {
    assert (stack + [p])[..|stack|] == stack;
  }

  lemma {:induction false} ClassScopesPrefix(a: seq<Pushed>, b: seq<Pushed>)
    requires a <= b
    ensures ClassScopes(a) <= ClassScopes(b)
    decreases |b|
  {
    if |a| < |b| {
      ClassScopesPrefix(a, b[..|b| - 1]);
    } else {
      assert a == b;
    }
  }

  lemma {:induction false} KeptClassDiffers(kept: seq<Pushed>, depth: int)
    requires forall i | 0 <= i < |kept| :: Within(depth, kept[i])
    ensures forall i | 0 <= i < |ClassScopes(kept)| :: ClassScopes(kept)[i].bodyDepth <= depth
  {
    if kept != [] {
      KeptClassDiffers(kept[..|kept| - 1], depth);
    }
  }

  /** The class scopes after a pop: the top is taken when it equals the popped scope by value. */
  function WithoutTop(classes: seq<Scope>, scope: Scope): seq<Scope>
  {
    if classes != [] && classes[|classes| - 1] == scope then classes[..|classes| - 1] else classes
  }

  /** Of the class scopes on a stack, these are a prefix that holds those to keep. */
  ghost predicate ClassesKept(kept: seq<Pushed>, classes: seq<Scope>, stack: seq<Pushed>)
  {
    kept <= stack && classes <= ClassScopes(stack) && |ClassScopes(kept)| <= |classes|
  }

  /** Popping by value takes at most the top class scope, and never one that is kept. */
  lemma {:induction false} PopKeepsClasses(kept: seq<Pushed>, stack: seq<Pushed>, classes: seq<Scope>, depth: int)
    requires stack != [] && ClassesKept(kept, classes, stack)
    requires forall i | 0 <= i < |kept| :: Within(depth, kept[i])
    requires !Within(depth, stack[|stack| - 1])
    ensures ClassesKept(kept, WithoutTop(classes, stack[|stack| - 1].scope), stack[..|stack| - 1])
  {
    var below := stack[..|stack| - 1];
    assert kept != stack;
    assert kept <= below;
    ClassScopesPrefix(kept, below);
    KeptClassDiffers(kept, depth);
    if |classes| == |ClassScopes(kept)| {
      assert classes == ClassScopes(kept);
    }
  }

  /** The invariant of the pop loop: everything to keep is still there, on both stacks. */
  ghost predicate Unpopped(kept: seq<Pushed>, scopes: seq<Scope>, classes: seq<Scope>, stack: seq<Pushed>)
  {
    scopes == Scopes(stack) && ClassesKept(kept, classes, stack)
  }

  ghost predicate Popping(
      kept: seq<Pushed>, all: seq<Pushed>, depth: int, scopes: seq<Scope>, classes: seq<Scope>, stack: seq<Pushed>)
  {
    Unpopped(kept, scopes, classes, stack) && stack <= all && Splits(kept, all, depth)
  }

  lemma UnpoppedStep(
      kept: seq<Pushed>, scopes: seq<Scope>, classes: seq<Scope>, stack: seq<Pushed>, all: seq<Pushed>, depth: int)
    requires Popping(kept, all, depth, scopes, classes, stack)
    requires scopes != [] && depth < scopes[|scopes| - 1].bodyDepth
    ensures var left := WithoutTop(classes, scopes[|scopes| - 1]);
      stack != [] && Popping(kept, all, depth, scopes[..|scopes| - 1], left, stack[..|stack| - 1])
  {
    assert scopes[|scopes| - 1] == stack[|stack| - 1].scope;
    PopKeepsClasses(kept, stack, classes, depth);
    assert Scopes(stack[..|stack| - 1]) == scopes[..|scopes| - 1];
  }

  lemma UnpoppedEnd(
      kept: seq<Pushed>, scopes: seq<Scope>, classes: seq<Scope>, stack: seq<Pushed>, all: seq<Pushed>, depth: int)
    requires Popping(kept, all, depth, scopes, classes, stack)
    requires scopes == [] || scopes[|scopes| - 1].bodyDepth <= depth
    ensures stack == kept && classes == ClassScopes(kept)
  {
    assert forall i | 0 <= i < |stack| :: scopes[i] == all[i].scope;
    assert |stack| == |kept|;
  }
}
