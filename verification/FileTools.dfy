// The write_file and edit_file tools: the unique-match guard of an edit, and the
// transactions both tools run.
module FileTools {
  import opened Text
  import opened Patching

  // ---------------------------------------------------------------------
  // str.count and str.replace(old, new, 1)
  // ---------------------------------------------------------------------

  predicate MatchesAt(content: string, pattern: string, i: int)
  {
    0 <= i && i + |pattern| <= |content| && content[i..i + |pattern|] == pattern
  }

  /** The first match at or after a position; |content| + 1 when there is none. */
  function Find(content: string, pattern: string, from: nat): (k: nat)
    ensures k <= |content| ==> from <= k && MatchesAt(content, pattern, k)
    ensures k == |content| + 1 || k <= |content|
    ensures forall i | from <= i < k :: !MatchesAt(content, pattern, i)
    decreases |content| + 1 - from
  {
    if from > |content| then |content| + 1
    else if MatchesAt(content, pattern, from) then from
    else Find(content, pattern, from + 1)
  }

  /** The number of non-overlapping matches, scanning from the left. */
  function Count(content: string, pattern: string, from: nat): nat
    requires pattern != ""
    decreases |content| + 1 - from
  {
    var k := Find(content, pattern, from);
    if k > |content| then 0 else 1 + Count(content, pattern, k + |pattern|)
  }

  function ReplaceFirst(content: string, pattern: string, replacement: string): string
  {
    var k := Find(content, pattern, 0);
    if k > |content| then content else content[..k] + replacement + content[k + |pattern|..]
  }

  /** The guard of an edit: a first match, and no other one past its end. */
  lemma CountIsOneExactly(content: string, pattern: string)
    requires pattern != ""
    ensures Count(content, pattern, 0) == 1 <==>
      exists k :: MatchesAt(content, pattern, k)
        && (forall i | 0 <= i < k :: !MatchesAt(content, pattern, i))
        && (forall i | k + |pattern| <= i :: !MatchesAt(content, pattern, i))
  {
    var k := Find(content, pattern, 0);
    if k <= |content| {
      var next := Find(content, pattern, k + |pattern|);
      if next <= |content| {
        assert Count(content, pattern, k + |pattern|) >= 1;
        assert MatchesAt(content, pattern, next);
      } else {
        assert Count(content, pattern, k + |pattern|) == 0;
        assert MatchesAt(content, pattern, k);
      }
    }
  }

  ghost predicate UniqueMatch(content: string, pattern: string)
  {
    exists k :: MatchesAt(content, pattern, k) && forall i | MatchesAt(content, pattern, i) :: i == k
  }

  /** No proper prefix of the pattern is also a suffix of it. */
  predicate Unbordered(pattern: string)
  {
    forall b | 0 < b < |pattern| :: pattern[..b] != pattern[|pattern| - b..]
  }

  lemma OverlapGivesBorder(content: string, pattern: string, i: int, j: int)
    requires MatchesAt(content, pattern, i) && MatchesAt(content, pattern, j)
    requires i < j < i + |pattern|
    ensures !Unbordered(pattern)
  {
    var b := i + |pattern| - j;
    assert pattern[..b] == content[j..j + |pattern|][..b] == content[j..j + b];
    assert pattern[|pattern| - b..] == content[i..i + |pattern|][|pattern| - b..] == content[j..j + b];
  }

  /** A pattern with a border occurs twice in a text where str.count finds one match. */
  lemma BorderedPatternEscapesGuard(pattern: string) returns (content: string)
    requires !Unbordered(pattern)
    ensures pattern != "" && Count(content, pattern, 0) == 1 && !UniqueMatch(content, pattern)
  {
    var b :| 0 < b < |pattern| && pattern[..b] == pattern[|pattern| - b..];
    var n := |pattern|;
    content := pattern + pattern[b..];
    assert content[0..n] == pattern;
    assert MatchesAt(content, pattern, 0);
    assert content[n - b..n - b + n] == pattern[n - b..] + pattern[b..] == pattern[..b] + pattern[b..] == pattern;
    assert MatchesAt(content, pattern, n - b);
    assert Find(content, pattern, 0) == 0;
    assert Find(content, pattern, n) > |content|;
    assert Count(content, pattern, n) == 0;
  }

  /**
   * The tool tells the model that old_string must be unique in the file. The guard
   * it runs (count == 1) means exactly that for every file if and only if
   * old_string has no border.
   */
  lemma GuardMeansUniqueExactly(pattern: string)
    requires pattern != ""
    ensures (forall content :: Count(content, pattern, 0) == 1 ==> UniqueMatch(content, pattern))
      <==> Unbordered(pattern)
  {
    if Unbordered(pattern) {
      forall content | Count(content, pattern, 0) == 1 ensures UniqueMatch(content, pattern) {
        CountIsOneExactly(content, pattern);
        var k :| MatchesAt(content, pattern, k)
          && (forall i | 0 <= i < k :: !MatchesAt(content, pattern, i))
          && (forall i | k + |pattern| <= i :: !MatchesAt(content, pattern, i));
        forall i | MatchesAt(content, pattern, i) ensures i == k {
          if k < i {
            OverlapGivesBorder(content, pattern, k, i);
          }
        }
      }
    } else {
      var content := BorderedPatternEscapesGuard(pattern);
      assert !(Count(content, pattern, 0) == 1 ==> UniqueMatch(content, pattern));
    }
  }

  lemma GuardAdmitsOverlap()
    ensures Count("aaa", "aa", 0) == 1 && !UniqueMatch("aaa", "aa")
  {
    assert MatchesAt("aaa", "aa", 0) && MatchesAt("aaa", "aa", 1);
    assert Find("aaa", "aa", 0) == 0;
    assert Find("aaa", "aa", 2) == 4;
  }

  // ---------------------------------------------------------------------
  // The tools
  // ---------------------------------------------------------------------

  /** What the environment settles for one tool call. */
  datatype ToolIo = ToolIo(readable: bool, root: Option<Path>, id: string, diff: string, io: ApplyIo)

  /** No patch means an error result; attempt is None when no transaction was applied. */
  datatype ToolOutcome = ToolOutcome(files: Files, patch: Option<PatchRecord>, attempt: Option<Attempt>)

  function Transact(files: Files, path: Path, after: string, io: ToolIo): ToolOutcome
  {
    var c := ChangeFor(files, path, after, io.root, io.id);
    var out := c.Apply(files, io.io);
    ToolOutcome(
      out.files,
      if out.kept.Some? then Some(Record(c, io.id, out.kept.value, io.diff)) else None,
      Some(AttemptOf(c, files, io.io)))
  }

  function WriteFile(files: Files, path: Path, content: string, io: ToolIo): ToolOutcome
  {
    if path in files && !io.readable then ToolOutcome(files, None, None)
    else Transact(files, path, content, io)
  }

  function EditFile(files: Files, path: Path, oldText: string, newText: string, io: ToolIo): ToolOutcome
  {
    if path !in files || oldText == "" || !io.readable || Count(files[path], oldText, 0) != 1
    then ToolOutcome(files, None, None)
    else Transact(files, path, ReplaceFirst(files[path], oldText, newText), io)
  }

  method ExecuteTransaction(fs: FileSystem, path: Path, after: string, io: ToolIo)
    returns (patch: Option<PatchRecord>, ghost attempt: Option<Attempt>)
    modifies fs
    ensures ToolOutcome(fs.files, patch, attempt) == Transact(old(fs.files), path, after, io)
  {
    var c := ChangeFor(fs.files, path, after, io.root, io.id);
    attempt := Some(AttemptOf(c, fs.files, io.io));
    var kept := c.ApplyTo(fs, io.io);
    patch := if kept.Some? then Some(Record(c, io.id, kept.value, io.diff)) else None;
  }

  method ExecuteWrite(fs: FileSystem, path: Path, content: string, io: ToolIo)
    returns (patch: Option<PatchRecord>, ghost attempt: Option<Attempt>)
    modifies fs
    ensures ToolOutcome(fs.files, patch, attempt) == WriteFile(old(fs.files), path, content, io)
  {
    if path in fs.files && !io.readable {
      return None, None;
    }
    patch, attempt := ExecuteTransaction(fs, path, content, io);
  }

  method ExecuteEdit(fs: FileSystem, path: Path, oldText: string, newText: string, io: ToolIo)
    returns (patch: Option<PatchRecord>, ghost attempt: Option<Attempt>)
    modifies fs
    ensures ToolOutcome(fs.files, patch, attempt) == EditFile(old(fs.files), path, oldText, newText, io)
  {
    if path !in fs.files || oldText == "" || !io.readable {
      return None, None;
    }
    var content := fs.files[path];
    var count := Count(content, oldText, 0);
    if count == 0 {
      return None, None;
    }
    if count > 1 {
      return None, None;
    }
    patch, attempt := ExecuteTransaction(fs, path, ReplaceFirst(content, oldText, newText), io);
  }

  /**
   * An edit that succeeds rewrites one occurrence of old_string and nothing else of
   * the file, and its record restores the text found.
   */
  lemma EditRewritesOneMatch(files: Files, path: Path, oldText: string, newText: string, io: ToolIo)
    ensures var out := EditFile(files, path, oldText, newText, io);
      out.patch.Some? && '/' !in io.id ==>
        && path in files && path in out.files
        && RewritesOne(files[path], out.files[path], oldText, newText)
        && At(RestoreOne(out.files, out.patch.value, Smooth).0, path) == Some(files[path])
  {
    if EditFile(files, path, oldText, newText, io).patch.Some? && '/' !in io.id {
      var content := files[path];
      SplitAtMatch(content, oldText, newText);
      AuxiliaryNamesAreNew(path, io.root, io.id);
      var c := ChangeFor(files, path, ReplaceFirst(content, oldText, newText), io.root, io.id);
      InstalledText(c, files, io.io);
    }
  }

  /** after is before with one occurrence of oldText turned into newText. */
  ghost predicate RewritesOne(before: string, after: string, oldText: string, newText: string)
  {
    exists left, right :: before == left + oldText + right && after == left + newText + right
  }

  lemma SplitAtMatch(content: string, oldText: string, newText: string)
    requires oldText != "" && Count(content, oldText, 0) == 1
    ensures RewritesOne(content, ReplaceFirst(content, oldText, newText), oldText, newText)
  {
    var k := Find(content, oldText, 0);
    assert k <= |content|;
    var before, after := content[..k], content[k + |oldText|..];
    assert content == before + oldText + after;
    assert ReplaceFirst(content, oldText, newText) == before + newText + after;
  }

  lemma InstalledText(c: Change, files: Files, io: ApplyIo)
    requires c.existed && c.Distinct() && c.Apply(files, io).kept.Some?
    ensures var out := c.Apply(files, io);
      out.kept.value == c.backup && At(out.files, c.path) == Some(c.after) && At(out.files, c.backup) == Some(c.before)
  {
  }

  /**
   * Whatever I/O steps of a write or edit of an existing file fail, as long as the
   * copy back from the backup works: an error leaves the old text, a success the
   * whole new text and a record that undoes it.
   */
  lemma {:induction false} TransactionIsAtomic(files: Files, path: Path, after: string, io: ToolIo)
    requires '/' !in io.id && path in files && io.io.restore.Written?
    ensures var out := Transact(files, path, after, io);
      match out.patch
      case None => At(out.files, path) == Some(files[path])
      case Some(patch) =>
        At(out.files, path) == Some(after) && At(RestoreOne(out.files, patch, Smooth).0, path) == Some(files[path])
  {
    AuxiliaryNamesAreNew(path, io.root, io.id);
    ExistingTargetIsAtomic(ChangeFor(files, path, after, io.root, io.id), files, io.io);
  }

  /**
   * A transaction, with success or not, keeps the baseline recoverable; a failure on a
   * path without a recorded patch moves the baseline to what it left there.
   */
  lemma {:induction false} ToolKeepsRecoverable(
      base: Files, files: Files, workspace: iset<Path>, patches: seq<PatchRecord>,
      path: Path, after: string, io: ToolIo)
    requires Recoverable(base, files, workspace, patches)
    requires var out := Transact(files, path, after, io); Clean(out.attempt.value, workspace)
    ensures var out := Transact(files, path, after, io);
      match out.patch
      case Some(patch) => Recoverable(base, out.files, workspace, patches + [patch])
      case None =>
        Recoverable(if Touched(patches, path) then base else SetAt(base, path, out.attempt.value.left),
                    out.files, workspace, patches)
  {
    var c := ChangeFor(files, path, after, io.root, io.id);
    ApplyKeepsRecoverable(base, files, workspace, patches, c, io.id, io.diff, io.io);
  }

  /** What the attempt of a transaction tells of it. */
  lemma AttemptTells(files: Files, path: Path, after: string, io: ToolIo)
    ensures var out := Transact(files, path, after, io);
      var a := out.attempt.value;
      && a.path == path && a.found == At(files, path) && a.left == At(out.files, path)
      && a.kept == out.patch.Some? && (out.patch.Some? ==> out.patch.value.path == path)
  {
  }
}
