// Patch policy: the verdict on a list of recorded patches, and why adding patches
// never clears a failed one.
module PatchPolicy {
  import opened Text
  import opened Patching

  datatype Status = Passed | Warning | Failed | Skipped
  datatype Severity = WarningLevel | ErrorLevel | CriticalLevel
  datatype Rule = ForbiddenPath | EmptyPatch | SingleFileSizeDelta | DiffTruncated | ChangedFileLimit | ChangedLineLimit
  datatype Violation = Violation(rule: Rule, severity: Severity)

  /** The configured limits; path normalisation and glob matching stay abstract. */
  datatype Limits = Limits(
    normalize: string -> string, forbidden: string -> bool,
    maxFiles: int, maxLines: int, maxBytes: int, failOnEmpty: bool)

  datatype PolicyReport = PolicyReport(
    status: Status, changedFiles: nat, patchCount: nat, added: nat, deleted: nat,
    bytesDelta: int, truncatedCount: nat, violations: seq<Violation>)

  // ---------------------------------------------------------------------
  // Reference definitions
  // ---------------------------------------------------------------------

  predicate IsAdded(line: string)
  {
    !StartsWith(line, "+++") && !StartsWith(line, "---") && StartsWith(line, "+")
  }

  predicate IsDeleted(line: string)
  {
    !StartsWith(line, "+++") && !StartsWith(line, "---") && StartsWith(line, "-")
  }

  function CountLines(lines: seq<string>, p: string -> bool): nat
  {
    if lines == [] then 0
    else CountLines(lines[..|lines| - 1], p) + if p(lines[|lines| - 1]) then 1 else 0
  }

  function AddedIn(diff: string): nat { CountLines(SplitLines(diff), IsAdded) }
  function DeletedIn(diff: string): nat { CountLines(SplitLines(diff), IsDeleted) }

  function AddedOf(p: PatchRecord): nat { AddedIn(p.diff) }
  function DeletedOf(p: PatchRecord): nat { DeletedIn(p.diff) }
  function TruncatedOf(p: PatchRecord): nat { if p.truncated then 1 else 0 }
  function SizeBefore(p: PatchRecord): nat { p.bytesBefore }
  function SizeAfter(p: PatchRecord): nat { p.bytesAfter }

  function Sum(patches: seq<PatchRecord>, f: PatchRecord -> nat): nat
  {
    if patches == [] then 0 else Sum(patches[..|patches| - 1], f) + f(patches[|patches| - 1])
  }

  datatype Totals = Totals(added: nat, deleted: nat, bytesDelta: int, truncated: nat)
  {
    function ChangedLines(): nat { added + deleted }
  }

  function TotalsOf(patches: seq<PatchRecord>): Totals
  {
    Totals(Sum(patches, AddedOf), Sum(patches, DeletedOf), Sum(patches, SizeAfter) - Sum(patches, SizeBefore),
           Sum(patches, TruncatedOf))
  }

  lemma SumNext(patches: seq<PatchRecord>, f: PatchRecord -> nat, i: nat)
    requires i < |patches|
    ensures Sum(patches[..i + 1], f) == Sum(patches[..i], f) + f(patches[i])
  {
    assert patches[..i + 1][..i] == patches[..i];
  }

  lemma TotalsNext(patches: seq<PatchRecord>, i: nat)
    requires i < |patches|
    ensures var t, p := TotalsOf(patches[..i]), patches[i];
      TotalsOf(patches[..i + 1]) ==
        Totals(t.added + AddedOf(p), t.deleted + DeletedOf(p), t.bytesDelta + Delta(p), t.truncated + TruncatedOf(p))
  {
    SumNext(patches, AddedOf, i);
    SumNext(patches, DeletedOf, i);
    SumNext(patches, SizeAfter, i);
    SumNext(patches, SizeBefore, i);
    SumNext(patches, TruncatedOf, i);
  }

  function ChangedPaths(limits: Limits, patches: seq<PatchRecord>): set<string>
  {
    set i | 0 <= i < |patches| && patches[i].path != "" :: limits.normalize(patches[i].path)
  }

  function Delta(p: PatchRecord): int { p.bytesAfter - p.bytesBefore }
  function Abs(n: int): nat { if n < 0 then -n else n }

  predicate IsEmptyPatch(p: PatchRecord)
  {
    IsBlank(p.diff) && p.bytesBefore == p.bytesAfter
  }

  /** A patch that fails the policy by itself. */
  predicate BreachesAlone(limits: Limits, p: PatchRecord)
  {
    || limits.forbidden(limits.normalize(p.path))
    || (limits.failOnEmpty && IsEmptyPatch(p))
    || Abs(Delta(p)) > limits.maxBytes
  }

  /** When a list of patches fails the policy, with no reference to how it is checked. */
  predicate Breach(limits: Limits, patches: seq<PatchRecord>)
  {
    patches != [] && (
      || (exists i | 0 <= i < |patches| :: BreachesAlone(limits, patches[i]))
      || |ChangedPaths(limits, patches)| > limits.maxFiles
      || TotalsOf(patches).ChangedLines() > limits.maxLines)
  }

  // ---------------------------------------------------------------------
  // The evaluation
  // ---------------------------------------------------------------------

  predicate Blocking(v: Violation) { v.severity != WarningLevel }

  function StatusFor(violations: seq<Violation>): Status
  {
    if exists v | v in violations :: Blocking(v) then Failed
    else if violations != [] then Warning
    else Passed
  }

  method DiffStats(diff: string) returns (added: nat, deleted: nat)
    ensures added == AddedIn(diff) && deleted == DeletedIn(diff)
  {
    added, deleted := 0, 0;
    var lines := SplitLines(diff);
    for i := 0 to |lines|
      invariant added == CountLines(lines[..i], IsAdded)
      invariant deleted == CountLines(lines[..i], IsDeleted)
    {
      var line := lines[i];
      assert lines[..i + 1][..i] == lines[..i];
      if StartsWith(line, "+++") || StartsWith(line, "---") {
        continue;
      }
      if StartsWith(line, "+") {
        assert line[0] == '+';
        added := added + 1;
      } else if StartsWith(line, "-") {
        deleted := deleted + 1;
      }
    }
    assert lines[..|lines|] == lines;
  }

  /** The violations one patch adds, in order. */
  function PatchViolations(limits: Limits, p: PatchRecord): seq<Violation>
  {
    (if limits.forbidden(limits.normalize(p.path)) then [Violation(ForbiddenPath, CriticalLevel)] else [])
    + (if limits.failOnEmpty && IsEmptyPatch(p) then [Violation(EmptyPatch, ErrorLevel)] else [])
    + (if Abs(Delta(p)) > limits.maxBytes then [Violation(SingleFileSizeDelta, ErrorLevel)] else [])
    + (if p.truncated then [Violation(DiffTruncated, WarningLevel)] else [])
  }

  function AllPatchViolations(limits: Limits, patches: seq<PatchRecord>): seq<Violation>
  {
    if patches == [] then []
    else
      AllPatchViolations(limits, patches[..|patches| - 1]) + PatchViolations(limits, patches[|patches| - 1])
  }

  /** The violations of the set as a whole. */
  function LimitViolations(limits: Limits, files: nat, lines: nat): seq<Violation>
  {
    (if files > limits.maxFiles then [Violation(ChangedFileLimit, ErrorLevel)] else [])
    + (if lines > limits.maxLines then [Violation(ChangedLineLimit, ErrorLevel)] else [])
  }

  ghost function ViolationsOf(limits: Limits, patches: seq<PatchRecord>): seq<Violation>
  {
    AllPatchViolations(limits, patches)
    + LimitViolations(limits, |ChangedPaths(limits, patches)|, TotalsOf(patches).ChangedLines())
  }

  /** The report, total by total. */
  ghost function Evaluated(limits: Limits, patches: seq<PatchRecord>): PolicyReport
  {
    if patches == [] then PolicyReport(Skipped, 0, 0, 0, 0, 0, 0, [])
    else
      var violations := ViolationsOf(limits, patches);
      PolicyReport(
        StatusFor(violations), |ChangedPaths(limits, patches)|, |patches|,
        TotalsOf(patches).added, TotalsOf(patches).deleted, TotalsOf(patches).bytesDelta,
        TotalsOf(patches).truncated, violations)
  }

  /** The checks of one patch, in the order they report. */
  method CheckPatch(limits: Limits, p: PatchRecord) returns (violations: seq<Violation>)
    ensures violations == PatchViolations(limits, p)
  {
    violations := [];
    if limits.forbidden(limits.normalize(p.path)) {
      violations := violations + [Violation(ForbiddenPath, CriticalLevel)];
    }
    if limits.failOnEmpty && IsEmptyPatch(p) {
      violations := violations + [Violation(EmptyPatch, ErrorLevel)];
    }
    if Abs(Delta(p)) > limits.maxBytes {
      violations := violations + [Violation(SingleFileSizeDelta, ErrorLevel)];
    }
    if p.truncated {
      violations := violations + [Violation(DiffTruncated, WarningLevel)];
    }
  }

  method Evaluate(limits: Limits, patches: seq<PatchRecord>) returns (report: PolicyReport)
    ensures report == Evaluated(limits, patches)
    ensures report.status == Failed <==> Breach(limits, patches)
  {
    if patches == [] {
      return PolicyReport(Skipped, 0, 0, 0, 0, 0, 0, []);
    }
    var changedPaths := ChangedPaths(limits, patches);
    var added: nat, deleted: nat, bytesDelta: int, truncatedCount: nat := 0, 0, 0, 0;
    var violations: seq<Violation> := [];
    for i := 0 to |patches|
      invariant Totals(added, deleted, bytesDelta, truncatedCount) == TotalsOf(patches[..i])
      invariant violations == AllPatchViolations(limits, patches[..i])
    {
      var p := patches[i];
      TotalsNext(patches, i);
      assert patches[..i + 1][..i] == patches[..i];
      var plus, minus := DiffStats(p.diff);
      added, deleted := added + plus, deleted + minus;
      bytesDelta := bytesDelta + Delta(p);
      var own := CheckPatch(limits, p);
      violations := violations + own;
      if p.truncated {
        truncatedCount := truncatedCount + 1;
      }
    }
    assert patches[..|patches|] == patches;
    if |changedPaths| > limits.maxFiles {
      violations := violations + [Violation(ChangedFileLimit, ErrorLevel)];
    }
    if added + deleted > limits.maxLines {
      violations := violations + [Violation(ChangedLineLimit, ErrorLevel)];
    }
    assert violations == Evaluated(limits, patches).violations;
    report := PolicyReport(
      StatusFor(violations), |changedPaths|, |patches|, added, deleted, bytesDelta, truncatedCount, violations);
    FailedExactly(limits, patches);
  }

  // ---------------------------------------------------------------------
  // Properties
  // ---------------------------------------------------------------------

  lemma {:induction false} BlockingViolations(limits: Limits, patches: seq<PatchRecord>)
    ensures (exists v | v in AllPatchViolations(limits, patches) :: Blocking(v))
      <==> (exists i | 0 <= i < |patches| :: BreachesAlone(limits, patches[i]))
  {
    if patches != [] {
      var last := |patches| - 1;
      BlockingViolations(limits, patches[..last]);
      var p := patches[last];
      if BreachesAlone(limits, p) {
        var own := PatchViolations(limits, p);
        assert Blocking(own[0]) && own[0] in AllPatchViolations(limits, patches);
      }
      assert forall v | v in PatchViolations(limits, p) && Blocking(v) :: BreachesAlone(limits, p);
    }
  }

  /** The status is FAILED exactly on a breach. */
  lemma FailedExactly(limits: Limits, patches: seq<PatchRecord>)
    ensures Evaluated(limits, patches).status == Failed <==> Breach(limits, patches)
  {
    if patches != [] {
      BlockingViolations(limits, patches);
      var vs := Evaluated(limits, patches).violations;
      var own := AllPatchViolations(limits, patches);
      assert forall v | v in own :: v in vs;
      if |ChangedPaths(limits, patches)| > limits.maxFiles {
        assert Violation(ChangedFileLimit, ErrorLevel) in vs && Blocking(Violation(ChangedFileLimit, ErrorLevel));
      }
      if TotalsOf(patches).ChangedLines() > limits.maxLines {
        assert Violation(ChangedLineLimit, ErrorLevel) in vs && Blocking(Violation(ChangedLineLimit, ErrorLevel));
      }
    }
  }

  lemma {:induction false} SumGrows(patches: seq<PatchRecord>, more: seq<PatchRecord>, f: PatchRecord -> nat)
    ensures Sum(patches + more, f) >= Sum(patches, f)
  {
    if more == [] {
      assert patches + more == patches;
    } else {
      var last := |more| - 1;
      assert (patches + more)[..|patches + more| - 1] == patches + more[..last];
      SumGrows(patches, more[..last], f);
    }
  }

  lemma LinesGrow(patches: seq<PatchRecord>, more: seq<PatchRecord>)
    ensures TotalsOf(patches + more).ChangedLines() >= TotalsOf(patches).ChangedLines()
  {
    SumGrows(patches, more, AddedOf);
    SumGrows(patches, more, DeletedOf);
  }

  lemma SubsetCardinality<T>(a: set<T>, b: set<T>)
    requires a <= b
    ensures |a| <= |b|
  {
    assert b == a + (b - a);
  }

  /** Appending patches never clears a failed verdict. */
  lemma BreachIsMonotone(limits: Limits, patches: seq<PatchRecord>, more: seq<PatchRecord>)
    requires Breach(limits, patches)
    ensures Breach(limits, patches + more)
    ensures Evaluated(limits, patches + more).status == Failed
  {
    var all := patches + more;
    LinesGrow(patches, more);
    forall p | p in ChangedPaths(limits, patches) ensures p in ChangedPaths(limits, all) {
      var i :| 0 <= i < |patches| && patches[i].path != "" && limits.normalize(patches[i].path) == p;
      assert all[i] == patches[i];
    }
    SubsetCardinality(ChangedPaths(limits, patches), ChangedPaths(limits, all));
    if i :| 0 <= i < |patches| && BreachesAlone(limits, patches[i]) {
      assert all[i] == patches[i];
    }
    FailedExactly(limits, all);
  }

  ghost predicate AnyCritical(violations: seq<Violation>)
  {
    exists v | v in violations :: v.severity == CriticalLevel
  }

  lemma AnyCriticalConcat(a: seq<Violation>, b: seq<Violation>)
    ensures AnyCritical(a + b) <==> AnyCritical(a) || AnyCritical(b)
  {
    assert forall v | v in a || v in b :: v in a + b;
    assert forall v | v in a + b :: v in a || v in b;
  }

  predicate TouchesForbidden(limits: Limits, patches: seq<PatchRecord>)
  {
    exists i | 0 <= i < |patches| :: limits.forbidden(limits.normalize(patches[i].path))
  }

  /** A forbidden path is the one critical violation. */
  lemma CriticalExactly(limits: Limits, patches: seq<PatchRecord>)
    ensures AnyCritical(Evaluated(limits, patches).violations) <==> TouchesForbidden(limits, patches)
  {
    CriticalAmong(limits, patches);
    EvaluatedViolations(limits, patches);
  }

  lemma EvaluatedViolations(limits: Limits, patches: seq<PatchRecord>)
    ensures Evaluated(limits, patches).violations == if patches == [] then [] else ViolationsOf(limits, patches)
  {
  }

  /** Only the patches' own violations can be critical. */
  lemma CriticalAmong(limits: Limits, patches: seq<PatchRecord>)
    ensures AnyCritical(ViolationsOf(limits, patches)) <==> TouchesForbidden(limits, patches)
  {
    var files, lines := |ChangedPaths(limits, patches)|, TotalsOf(patches).ChangedLines();
    CriticalInPatches(limits, patches);
    LimitsAreNotCritical(limits, files, lines);
    AnyCriticalConcat(AllPatchViolations(limits, patches), LimitViolations(limits, files, lines));
  }

  lemma LimitsAreNotCritical(limits: Limits, files: nat, lines: nat)
    ensures !AnyCritical(LimitViolations(limits, files, lines))
  {
  }

  lemma {:induction false} CriticalInPatches(limits: Limits, patches: seq<PatchRecord>)
    ensures AnyCritical(AllPatchViolations(limits, patches)) <==> TouchesForbidden(limits, patches)
  {
    if patches != [] {
      var head, last := patches[..|patches| - 1], patches[|patches| - 1];
      CriticalInPatches(limits, head);
      CriticalInOne(limits, last);
      AnyCriticalConcat(AllPatchViolations(limits, head), PatchViolations(limits, last));
      ForbiddenSnoc(limits, head, last);
      assert patches == head + [last];
    }
  }

  lemma ForbiddenSnoc(limits: Limits, head: seq<PatchRecord>, last: PatchRecord)
    ensures TouchesForbidden(limits, head + [last])
      <==> TouchesForbidden(limits, head) || limits.forbidden(limits.normalize(last.path))
  {
    var all := head + [last];
    assert forall i | 0 <= i < |head| :: all[i] == head[i];
    assert all[|head|] == last;
  }

  lemma CriticalInOne(limits: Limits, p: PatchRecord)
    ensures AnyCritical(PatchViolations(limits, p)) <==> limits.forbidden(limits.normalize(p.path))
  {
    if limits.forbidden(limits.normalize(p.path)) {
      assert PatchViolations(limits, p)[0].severity == CriticalLevel;
    }
  }

  // ---------------------------------------------------------------------
  // The same conditions, on the raw records
  // ---------------------------------------------------------------------

  /** A line that adds or deletes, headers aside. */
  predicate IsChange(line: string)
  {
    line != [] && (line[0] == '+' || line[0] == '-')
    && !(|line| >= 3 && line[0] == line[1] == line[2])
  }

  function ChangesOf(p: PatchRecord): nat { CountLines(SplitLines(p.diff), IsChange) }

  lemma OneLineChanges(line: string)
    ensures IsChange(line) <==> IsAdded(line) || IsDeleted(line)
    ensures !(IsAdded(line) && IsDeleted(line))
  {
    if |line| >= 3 {
      assert line[..3] == [line[0], line[1], line[2]];
    }
    if line != [] {
      assert line[..1] == [line[0]];
    }
  }

  lemma {:induction false} ChangesAreBoth(lines: seq<string>)
    ensures CountLines(lines, IsChange) == CountLines(lines, IsAdded) + CountLines(lines, IsDeleted)
  {
    if lines != [] {
      ChangesAreBoth(lines[..|lines| - 1]);
      OneLineChanges(lines[|lines| - 1]);
    }
  }

  lemma {:induction false} SumAdds(
      patches: seq<PatchRecord>, f: PatchRecord -> nat, g: PatchRecord -> nat, h: PatchRecord -> nat)
    requires forall p :: h(p) == f(p) + g(p)
    ensures Sum(patches, h) == Sum(patches, f) + Sum(patches, g)
  {
    if patches != [] {
      SumAdds(patches[..|patches| - 1], f, g, h);
    }
  }

  /** The changed lines of a report are the lines that add or delete, over all patches. */
  lemma LinesTell(patches: seq<PatchRecord>)
    ensures TotalsOf(patches).ChangedLines() == Sum(patches, ChangesOf)
  {
    forall p: PatchRecord ensures ChangesOf(p) == AddedOf(p) + DeletedOf(p) {
      ChangesAreBoth(SplitLines(p.diff));
    }
    SumAdds(patches, AddedOf, DeletedOf, ChangesOf);
  }

  /** One patch is enough: a forbidden path, an empty patch, or a file that grew or shrank too much. */
  predicate TooMuchAlone(limits: Limits, p: PatchRecord)
  {
    || limits.forbidden(limits.normalize(p.path))
    || (limits.failOnEmpty && IsBlank(p.diff) && p.bytesBefore == p.bytesAfter)
    || p.bytesAfter > p.bytesBefore + limits.maxBytes
    || p.bytesBefore > p.bytesAfter + limits.maxBytes
  }

  /** The patches together touch too many files, or change too many lines. */
  predicate TooMuchTogether(limits: Limits, patches: seq<PatchRecord>)
  {
    || |set i | 0 <= i < |patches| && patches[i].path != "" :: limits.normalize(patches[i].path)| > limits.maxFiles
    || Sum(patches, ChangesOf) > limits.maxLines
  }

  /** The verdict on a list of patches, on what its records say. */
  lemma VerdictExactly(limits: Limits, patches: seq<PatchRecord>)
    ensures Evaluated(limits, patches).status == Skipped <==> patches == []
    ensures Evaluated(limits, patches).status == Failed <==>
      patches != []
      && (TooMuchTogether(limits, patches) || exists i :: 0 <= i < |patches| && TooMuchAlone(limits, patches[i]))
    ensures Evaluated(limits, patches).status == Warning ==> exists i :: 0 <= i < |patches| && patches[i].truncated
  {
    FailedExactly(limits, patches);
    LinesTell(patches);
    SameAlone(limits, patches);
    if Evaluated(limits, patches).status == Warning {
      WarnsForTruncation(limits, patches);
    }
  }

  lemma SameAlone(limits: Limits, patches: seq<PatchRecord>)
    ensures (exists i :: 0 <= i < |patches| && TooMuchAlone(limits, patches[i]))
       <==> (exists i | 0 <= i < |patches| :: BreachesAlone(limits, patches[i]))
  {
    assert forall p: PatchRecord :: TooMuchAlone(limits, p) <==> BreachesAlone(limits, p);
  }

  lemma WarnsForTruncation(limits: Limits, patches: seq<PatchRecord>)
    requires Evaluated(limits, patches).status == Warning
    ensures exists i :: 0 <= i < |patches| && patches[i].truncated
  {
    FailedExactly(limits, patches);
    assert ViolationsOf(limits, patches) != [];
    assert AllPatchViolations(limits, patches) != [];
    var i := ViolationHasPatch(limits, patches);
  }

  lemma {:induction false} ViolationHasPatch(limits: Limits, patches: seq<PatchRecord>) returns (i: nat)
    requires AllPatchViolations(limits, patches) != []
    ensures i < |patches| && (patches[i].truncated || BreachesAlone(limits, patches[i]))
  {
    var last := |patches| - 1;
    if PatchViolations(limits, patches[last]) != [] {
      i := last;
    } else {
      i := ViolationHasPatch(limits, patches[..last]);
    }
  }

  /** When a patch violates a rule. */
  predicate Violates(limits: Limits, p: PatchRecord, rule: Rule)
  {
    match rule
    case ForbiddenPath => limits.forbidden(limits.normalize(p.path))
    case EmptyPatch => limits.failOnEmpty && IsBlank(p.diff) && p.bytesBefore == p.bytesAfter
    case SingleFileSizeDelta => p.bytesAfter > p.bytesBefore + limits.maxBytes || p.bytesBefore > p.bytesAfter + limits.maxBytes
    case DiffTruncated => p.truncated
    case _ => false
  }

  function SeverityOf(rule: Rule): Severity
  {
    match rule
    case ForbiddenPath => CriticalLevel
    case DiffTruncated => WarningLevel
    case _ => ErrorLevel
  }

  lemma PatchViolates(limits: Limits, p: PatchRecord, v: Violation)
    ensures v in PatchViolations(limits, p) <==> v.severity == SeverityOf(v.rule) && Violates(limits, p, v.rule)
  {
  }

  ghost predicate AnyViolates(limits: Limits, patches: seq<PatchRecord>, rule: Rule)
  {
    exists i :: 0 <= i < |patches| && Violates(limits, patches[i], rule)
  }

  lemma AnyViolatesSnoc(limits: Limits, head: seq<PatchRecord>, last: PatchRecord, rule: Rule)
    ensures AnyViolates(limits, head + [last], rule) <==> AnyViolates(limits, head, rule) || Violates(limits, last, rule)
  {
    var all := head + [last];
    assert forall i | 0 <= i < |head| :: all[i] == head[i];
    assert all[|head|] == last;
  }

  ghost predicate ReportedFor(limits: Limits, patches: seq<PatchRecord>, v: Violation)
  {
    v in AllPatchViolations(limits, patches)
    <==> v.severity == SeverityOf(v.rule) && AnyViolates(limits, patches, v.rule)
  }

  lemma ReportedNext(limits: Limits, head: seq<PatchRecord>, last: PatchRecord, v: Violation)
    requires ReportedFor(limits, head, v)
    ensures ReportedFor(limits, head + [last], v)
  {
    PatchViolates(limits, last, v);
    AnyViolatesSnoc(limits, head, last, v.rule);
    AllViolationsSnoc(limits, head, last);
  }

  lemma AllViolationsSnoc(limits: Limits, head: seq<PatchRecord>, last: PatchRecord)
    ensures AllPatchViolations(limits, head + [last]) == AllPatchViolations(limits, head) + PatchViolations(limits, last)
  {
    assert (head + [last])[..|head|] == head;
  }

  lemma {:induction false} PatchesViolate(limits: Limits, patches: seq<PatchRecord>, v: Violation)
    ensures ReportedFor(limits, patches, v)
  {
    if patches != [] {
      var head, last := patches[..|patches| - 1], patches[|patches| - 1];
      PatchesViolate(limits, head, v);
      ReportedNext(limits, head, last, v);
      assert patches == head + [last];
    }
  }

  lemma LimitViolates(limits: Limits, files: nat, lines: nat, v: Violation)
    ensures v in LimitViolations(limits, files, lines) <==>
      && v.severity == SeverityOf(v.rule)
      && ((v.rule.ChangedFileLimit? && files > limits.maxFiles) || (v.rule.ChangedLineLimit? && lines > limits.maxLines))
  {
  }

  /** A violation is reported exactly if its rule is violated, by a patch or by the patches together, with its severity. */
  lemma ViolationExactly(limits: Limits, patches: seq<PatchRecord>, v: Violation)
    requires patches != []
    ensures v in Evaluated(limits, patches).violations <==>
      && v.severity == SeverityOf(v.rule)
      && (|| AnyViolates(limits, patches, v.rule)
          || (v.rule.ChangedFileLimit? && |ChangedPaths(limits, patches)| > limits.maxFiles)
          || (v.rule.ChangedLineLimit? && Sum(patches, ChangesOf) > limits.maxLines))
  {
    PatchesViolate(limits, patches, v);
    EvaluatedViolations(limits, patches);
    LinesTell(patches);
    LimitViolates(limits, |ChangedPaths(limits, patches)|, TotalsOf(patches).ChangedLines(), v);
  }
}
