// Patch transactions over an abstract file system: applying one change with a
// backup, and rolling a whole trajectory of changes back.
module Patching {
  import opened Text

  type Path = string
  type Files = map<Path, string>

  function At(files: Files, path: Path): Option<string>
  {
    if path in files then Some(files[path]) else None
  }

  // ---------------------------------------------------------------------
  // I/O outcomes, chosen by the environment
  // ---------------------------------------------------------------------

  /** write_text: all of it, or an error that leaves the old file or a fragment. */
  datatype WriteIo = Written | Broken(left: Option<string>)

  datatype ReplaceIo = Replaced | PermissionDenied | ReplaceFailed

  /** One outcome for each I/O step of an apply, any of which may fail. */
  datatype ApplyIo = ApplyIo(
    parentMade: bool, backupDirMade: bool, backup: WriteIo, temp: WriteIo,
    replace: ReplaceIo, fallback: WriteIo, unlinked: bool, restore: WriteIo)

  /** Restoring one patch works, or raises and leaves the target in any state. */
  datatype RestoreIo = Smooth | Raises(left: Option<string>)

  function AfterWrite(files: Files, path: Path, text: string, io: WriteIo): Files
  {
    match io
    case Written => files[path := text]
    case Broken(None) => files
    case Broken(Some(fragment)) => files[path := fragment]
  }

  class FileSystem {
    var files: Files

    constructor (files: Files)
      ensures this.files == files
    {
      this.files := files;
    }

    method Write(path: Path, text: string, io: WriteIo) returns (ok: bool)
      modifies this
      ensures files == AfterWrite(old(files), path, text, io)
      ensures ok == io.Written?
    {
      match io {
        case Written => files := files[path := text];
        case Broken(None) =>
        case Broken(Some(fragment)) => files := files[path := fragment];
      }
      ok := io.Written?;
    }

    method Replace(source: Path, target: Path, io: ReplaceIo)
      requires source in files
      modifies this
      ensures files == if io.Replaced? then (old(files) - {source})[target := old(files)[source]] else old(files)
    {
      if io.Replaced? {
        var text := files[source];
        files := files - {source};
        files := files[target := text];
      }
    }

    method Unlink(path: Path)
      modifies this
      ensures files == old(files) - {path}
    {
      files := files - {path};
    }
  }

  // ---------------------------------------------------------------------
  // Names of the auxiliary files
  // ---------------------------------------------------------------------

  function LastIndexOf(s: string, c: char): (k: int)
    ensures -1 <= k < |s|
    ensures k >= 0 ==> s[k] == c
    ensures forall i | k < i < |s| :: s[i] != c
  {
    if s == [] then -1
    else if s[|s| - 1] == c then |s| - 1
    else LastIndexOf(s[..|s| - 1], c)
  }

  function Parent(path: Path): string
  {
    path[..LastIndexOf(path, '/') + 1]
  }

  function Name(path: Path): string
  {
    path[LastIndexOf(path, '/') + 1..]
  }

  /** PurePath.suffix, with ".txt" standing in for an empty one. */
  function BackupSuffix(name: string): string
  {
    var dot := LastIndexOf(name, '.');
    if 0 < dot < |name| - 1 then name[dot..] else ".txt"
  }

  /** The suffix begins at the last dot, unless the name begins or ends there or has none. */
  lemma SuffixExactly(name: string, k: nat)
    requires k < |name| && name[k] == '.' && forall i | k < i < |name| :: name[i] != '.'
    ensures BackupSuffix(name) == if k == 0 || k == |name| - 1 then ".txt" else name[k..]
  {
  }

  lemma NoSuffix(name: string)
    requires '.' !in name
    ensures BackupSuffix(name) == ".txt"
  {
  }

  function BackupPath(path: Path, root: Option<Path>, id: string): Path
  {
    var directory := if root.Some? then root.value else Parent(path) + ".patch_backups";
    directory + "/" + (Name(path) + ("." + id + BackupSuffix(Name(path)) + ".bak"))
  }

  function TempPath(path: Path, id: string): Path
  {
    Parent(path) + "." + Name(path) + "." + id + ".tmp"
  }

  lemma AuxiliaryNamesDiffer(path: Path, root: Option<Path>, id: string)
    ensures BackupPath(path, root, id) != TempPath(path, id)
    ensures BackupPath(path, root, id) != ""
  {
    var b, t := BackupPath(path, root, id), TempPath(path, id);
    assert b[|b| - 1] == 'k' && t[|t| - 1] == 'p';
  }

  lemma NameOf(directory: string, name: string)
    requires '/' !in name
    ensures Name(directory + "/" + name) == name
  {
    var path := directory + "/" + name;
    var k := LastIndexOf(path, '/');
    assert path[|directory|] == '/';
    assert forall i | |directory| < i < |path| :: path[i] == name[i - |directory| - 1];
    assert k == |directory|;
    assert path[|directory| + 1..] == name;
  }

  /** With an id that is a plain name, neither auxiliary file is the target. */
  lemma AuxiliaryNamesAreNew(path: Path, root: Option<Path>, id: string)
    requires '/' !in id
    ensures TempPath(path, id) != path && BackupPath(path, root, id) != path
  {
    TempNameIsNew(path, id);
    var directory := if root.Some? then root.value else Parent(path) + ".patch_backups";
    var suffix := BackupSuffix(Name(path));
    var tail := "." + id + suffix + ".bak";
    assert '/' !in Name(path) && '/' !in suffix;
    LongerNameIsNew(path, directory, tail);
  }

  lemma TempNameIsNew(path: Path, id: string)
    ensures TempPath(path, id) != path
  {
    assert |TempPath(path, id)| == |path| + |id| + 6;
  }

  lemma LongerNameIsNew(path: Path, directory: string, tail: string)
    requires '/' !in tail && tail != ""
    ensures directory + "/" + (Name(path) + tail) != path
  {
    assert '/' !in Name(path);
    NameOf(directory, Name(path) + tail);
  }

  // ---------------------------------------------------------------------
  // Transactions
  // ---------------------------------------------------------------------

  const MAX_RECORDED_DIFF_CHARS := 12000

  function TruncateDiff(diff: string): (string, bool)
  {
    if |diff| <= MAX_RECORDED_DIFF_CHARS then (diff, false)
    else
      (diff[..MAX_RECORDED_DIFF_CHARS] + "\n... diff truncated " +
       Decimal(|diff| - MAX_RECORDED_DIFF_CHARS) + " chars", true)
  }

  /** Patch metadata as the trajectory records it; backup == "" means there is none. */
  datatype PatchRecord = PatchRecord(
    id: string, path: Path, existed: bool, backup: Path, diff: string, truncated: bool,
    bytesBefore: nat, bytesAfter: nat)

  /** The file system after an apply, and the backup kept ("" for none) when it succeeded. */
  datatype Applied = Applied(files: Files, kept: Option<Path>)

  /** The names and texts one apply works on. */
  datatype Change = Change(path: Path, backup: Path, temp: Path, before: string, after: string, existed: bool)
  {
    /** Three different files. */
    predicate Distinct()
    {
      path != temp && backup != temp && backup != path && backup != ""
    }

    /** The backup is copied over the target if it was taken. */
    function BestEffort(files: Files, kept: Path, io: WriteIo): Files
    {
      if kept != "" && kept in files then AfterWrite(files, path, files[kept], io) else files
    }

    /** Taking the backup: None when that failed. */
    function Save(files: Files, io: ApplyIo): Applied
    {
      if !io.parentMade || (existed && !io.backupDirMade) then Applied(files, None)
      else if !existed then Applied(files, Some(""))
      else Applied(AfterWrite(files, backup, before, io.backup), if io.backup.Written? then Some(backup) else None)
    }

    /** Writing the new text over the target, by way of the temporary file. */
    function Install(files: Files, kept: Path, io: ApplyIo): Applied
    {
      var staged := AfterWrite(files, temp, after, io.temp);
      if io.temp.Broken? || io.replace.ReplaceFailed? then Applied(BestEffort(staged, kept, io.restore), None)
      else if io.replace.Replaced? then Applied((staged - {temp})[path := after], Some(kept))
      else
        var forced := AfterWrite(staged, path, after, io.fallback);
        if io.fallback.Broken? || !io.unlinked then Applied(BestEffort(forced, kept, io.restore), None)
        else Applied(forced - {temp}, Some(kept))
    }

    /** Where each I/O outcome leads. */
    function Apply(files: Files, io: ApplyIo): Applied
    {
      var saved := Save(files, io);
      if saved.kept.None? then saved else Install(saved.files, saved.kept.value, io)
    }

    method BestEffortRollback(fs: FileSystem, kept: Path, io: WriteIo)
      modifies fs
      ensures fs.files == BestEffort(old(fs.files), kept, io)
    {
      if kept == "" {
        return;
      }
      if kept in fs.files {
        var _ := fs.Write(path, fs.files[kept], io);
      }
    }

    method ApplyTo(fs: FileSystem, io: ApplyIo) returns (kept: Option<Path>)
      requires backup != ""
      modifies fs
      ensures Applied(fs.files, kept) == Apply(old(fs.files), io)
    {
      var saved := "";
      var ok := io.parentMade;
      if ok && existed {
        ok := io.backupDirMade;
        if ok {
          ok := fs.Write(backup, before, io.backup);
          if ok {
            saved := backup;
          }
        }
      }
      assert Applied(fs.files, if ok then Some(saved) else None) == Save(old(fs.files), io);
      label Saved:
      if ok {
        ok := fs.Write(temp, after, io.temp);
      }
      if ok {
        fs.Replace(temp, path, io.replace);
        ok := io.replace.Replaced?;
        if io.replace.PermissionDenied? {
          ok := fs.Write(path, after, io.fallback);
          if ok {
            ok := io.unlinked;
            if ok {
              fs.Unlink(temp);
            }
          }
        }
      }
      if !ok {
        BestEffortRollback(fs, saved, io.restore);
        return None;
      }
      kept := Some(saved);
    }
  }

  /** An apply touches its target, its backup and its temporary file only. */
  lemma ApplyFrame(c: Change, files: Files, io: ApplyIo, q: Path)
    requires q != c.path && q != c.temp && (c.existed ==> q != c.backup)
    ensures At(c.Apply(files, io).files, q) == At(files, q)
  {
    var saved := c.Save(files, io);
    assert At(saved.files, q) == At(files, q);
  }

  /**
   * Whatever subset of the I/O steps fails, an existing target ends with its old
   * text (and an error) or with the whole new text (and a usable backup), as long
   * as the copy back from the backup itself works.
   */
  lemma {:induction false} ExistingTargetIsAtomic(c: Change, files: Files, io: ApplyIo)
    requires c.existed && At(files, c.path) == Some(c.before) && c.Distinct()
    requires io.restore.Written?
    ensures var out := c.Apply(files, io);
      match out.kept
      case None => At(out.files, c.path) == Some(c.before)
      case Some(kept) =>
        At(out.files, c.path) == Some(c.after) && kept == c.backup && At(out.files, kept) == Some(c.before)
  {
    var saved := c.Save(files, io);
    assert At(saved.files, c.path) == Some(c.before);
  }

  /** The I/O outcomes up to the temporary file let the replacement be tried. */
  predicate Staged(existed: bool, io: ApplyIo)
  {
    io.parentMade && (existed ==> io.backupDirMade && io.backup.Written?) && io.temp.Written?
  }

  /** The target itself was written, and then the apply failed. */
  predicate FallbackFails(existed: bool, io: ApplyIo)
  {
    Staged(existed, io) && io.replace.PermissionDenied? && (io.fallback.Broken? || !io.unlinked)
  }

  /** An apply raises exactly on these I/O outcomes. */
  predicate Fails(existed: bool, io: ApplyIo)
  {
    !Staged(existed, io) || io.replace.ReplaceFailed? || FallbackFails(existed, io)
  }

  lemma {:induction false} FailsExactly(c: Change, files: Files, io: ApplyIo)
    ensures c.Apply(files, io).kept.None? <==> Fails(c.existed, io)
  {
  }

  /**
   * A target that did not exist has no backup, so an error does not always leave
   * it absent: it does exactly if the failing fallback write left nothing behind.
   */
  lemma {:induction false} NewTargetExactly(c: Change, files: Files, io: ApplyIo)
    requires !c.existed && c.path !in files && c.path != c.temp && "" !in files
    ensures var out := c.Apply(files, io);
      match out.kept
      case None => c.path in out.files <==> StrandsNew(io)
      case Some(kept) => At(out.files, c.path) == Some(c.after) && kept == ""
  {
  }

  predicate StrandsNew(io: ApplyIo)
  {
    FallbackFails(false, io) && (io.fallback.Written? || io.fallback.left.Some?)
  }

  /** The text of the target after the fallback write. */
  function Forced(c: Change, io: ApplyIo): string
  {
    match io.fallback
    case Written => c.after
    case Broken(Some(fragment)) => fragment
    case Broken(None) => c.before
  }

  /**
   * A failed apply of an existing target whose copy back fails too: with a fragment
   * left by the copy if the backup was taken, or else with what the fallback left.
   */
  predicate SpoilsOld(c: Change, io: ApplyIo)
  {
    && Fails(true, io) && io.parentMade && io.backupDirMade && io.backup.Written?
    && match io.restore
       case Written => false
       case Broken(Some(fragment)) => fragment != c.before
       case Broken(None) => FallbackFails(true, io) && Forced(c, io) != c.before
  }

  /** When a failed apply does not leave an existing target as it was, by I/O outcomes alone. */
  lemma {:induction false} OldTargetExactly(c: Change, files: Files, io: ApplyIo)
    requires c.existed && At(files, c.path) == Some(c.before) && c.Distinct()
    ensures var out := c.Apply(files, io);
      out.kept.None? ==> (At(out.files, c.path) != Some(c.before) <==> SpoilsOld(c, io))
  {
    var saved := c.Save(files, io);
    assert At(saved.files, c.path) == Some(c.before);
  }

  lemma NewTargetCanBeStranded()
    ensures var io := ApplyIo(true, true, Written, Written, PermissionDenied, Written, false, Written);
      var out := Change("a", "b", "t", "", "new", false).Apply(map[], io);
      out.kept.None? && At(out.files, "a") == Some("new")
  {
  }

  /**
   * A successful apply leaves the whole new text, the backup of an existing target, no
   * temporary file, and every other file as it was.
   */
  lemma SuccessExactly(c: Change, files: Files, io: ApplyIo)
    requires c.Distinct() && c.existed == (c.path in files) && (c.existed ==> files[c.path] == c.before)
    requires c.Apply(files, io).kept.Some?
    ensures c.Apply(files, io).files ==
      (if c.existed then files[c.backup := c.before] else files)[c.path := c.after] - {c.temp}
  {
    var saved := if c.existed then files[c.backup := c.before] else files;
    assert c.Save(files, io).files == saved;
    assert (saved[c.temp := c.after] - {c.temp})[c.path := c.after] == saved[c.path := c.after] - {c.temp};
    assert saved[c.temp := c.after][c.path := c.after] - {c.temp} == saved[c.path := c.after] - {c.temp};
  }

  /** What PatchApplyResult records of a successful change. */
  function Record(c: Change, id: string, kept: Path, diff: string): PatchRecord
  {
    var (text, truncated) := TruncateDiff(diff);
    PatchRecord(id, c.path, c.existed, kept, text, truncated, Utf8Length(c.before), Utf8Length(c.after))
  }

  /** A record tells the path, what undoes it, the diff up to its limit, and the sizes of the two texts in order. */
  lemma RecordTells(c: Change, files: Files, id: string, diff: string, io: ApplyIo)
    requires c.Distinct() && c.existed == (c.path in files) && (c.existed ==> files[c.path] == c.before)
    requires c.Apply(files, io).kept.Some?
    ensures var out := c.Apply(files, io);
      var r := Record(c, id, out.kept.value, diff);
      && r.path == c.path && r.id == id && At(out.files, r.path) == Some(c.after)
      && r.existed == (c.path in files)
      && (r.existed ==> At(out.files, r.backup) == At(files, c.path))
      && (!r.existed ==> r.backup == "")
      && (r.truncated <==> |diff| > 12000) && (!r.truncated ==> r.diff == diff)
      && (r.truncated ==> diff[..12000] <= r.diff)
      && r.bytesAfter == Utf8Length(c.after) && (r.existed ==> r.bytesBefore == Utf8Length(files[c.path]))
  {
  }

  /** The change a transaction on this path makes, its backup under the given root. */
  function ChangeFor(files: Files, path: Path, after: string, root: Option<Path>, id: string): (c: Change)
    ensures c.backup != "" && c.backup != c.temp
  {
    AuxiliaryNamesDiffer(path, root, id);
    Change(path, BackupPath(path, root, id), TempPath(path, id),
           if path in files then files[path] else "", after, path in files)
  }

  // ---------------------------------------------------------------------
  // Rolling back recorded patches, newest first
  // ---------------------------------------------------------------------

  datatype RollbackReport = RollbackReport(attempted: nat, restored: nat, failed: nat)
  {
    function Status(): string
    {
      if attempted == 0 then "skipped"
      else if failed == 0 then "passed"
      else if restored > 0 then "partial"
      else "failed"
    }
  }

  /** The files after restoring one patch, and whether it counts as restored. */
  function RestoreOne(files: Files, r: PatchRecord, io: RestoreIo): (Files, bool)
  {
    if r.backup != "" then
      if r.backup !in files then (files, false)
      else if io.Smooth? then (files[r.path := files[r.backup]], true)
      else (AfterWrite(files, r.path, "", Broken(io.left)), false)
    else if !r.existed then
      if io.Smooth? then (files - {r.path}, true)
      else (AfterWrite(files, r.path, "", Broken(io.left)), false)
    else (files, false)
  }

  /** There is something to restore from: the backup, or the absence of the file. */
  predicate Restorable(files: Files, r: PatchRecord)
  {
    if r.backup == "" then !r.existed else r.backup in files
  }

  /**
   * A patch counts as restored exactly if there was something to restore from and nothing
   * failed. Then its path holds what the backup holds, or nothing; without a fault
   * nothing else changes, and no other file ever does.
   */
  lemma RestoreExactly(files: Files, r: PatchRecord, io: RestoreIo, q: Path)
    ensures var (after, ok) := RestoreOne(files, r, io);
      && (ok <==> Restorable(files, r) && io.Smooth?)
      && (ok ==> At(after, r.path) == if r.backup == "" then None else Some(files[r.backup]))
      && (!Restorable(files, r) ==> after == files)
      && (q != r.path ==> At(after, q) == At(files, q))
  {
  }

  /** Files and per-patch outcomes, newest patch first; io(i) is the outcome for patch i. */
  function RollbackAll(files: Files, patches: seq<PatchRecord>, io: nat -> RestoreIo): (out: (Files, seq<bool>))
    ensures |out.1| == |patches|
    decreases |patches|
  {
    if patches == [] then (files, [])
    else
      var last := |patches| - 1;
      var (restored, ok) := RestoreOne(files, patches[last], io(last));
      var rest := RollbackAll(restored, patches[..last], io);
      (rest.0, [ok] + rest.1)
  }

  function CountTrue(flags: seq<bool>): (n: nat)
    ensures n <= |flags|
    ensures n == |flags| <==> forall i | 0 <= i < |flags| :: flags[i]
  {
    if flags == [] then 0
    else CountTrue(flags[..|flags| - 1]) + if flags[|flags| - 1] then 1 else 0
  }

  function ReportOf(results: seq<bool>): RollbackReport
  {
    RollbackReport(|results|, CountTrue(results), |results| - CountTrue(results))
  }

  method Restore(fs: FileSystem, r: PatchRecord, io: RestoreIo) returns (ok: bool)
    modifies fs
    ensures (fs.files, ok) == RestoreOne(old(fs.files), r, io)
  {
    if r.backup != "" {
      if r.backup !in fs.files {
        return false;
      }
      ok := fs.Write(r.path, fs.files[r.backup], if io.Smooth? then Written else Broken(io.left));
      return;
    }
    if !r.existed {
      if io.Smooth? {
        fs.Unlink(r.path);
        return true;
      }
      ok := fs.Write(r.path, "", Broken(io.left));
      return;
    }
    ok := false;
  }

  method RollbackAppliedPatches(fs: FileSystem, patches: seq<PatchRecord>, io: nat -> RestoreIo)
    returns (report: RollbackReport)
    modifies fs
    ensures fs.files == RollbackAll(old(fs.files), patches, io).0
    ensures report == ReportOf(RollbackAll(old(fs.files), patches, io).1)
  {
    var results := [];
    var n := |patches|;
    ghost var end := RollbackAll(fs.files, patches, io);
    assert patches[..n] == patches && [] + end.1 == end.1;
    while n > 0
      invariant 0 <= n <= |patches| && RollsOn(end, fs.files, results, patches, n, io)
    {
      n := n - 1;
      RollsOnNext(end, fs.files, results, patches, n, io);
      var ok := Restore(fs, patches[n], io(n));
      results := results + [ok];
    }
    assert results + [] == results;
    report := ReportOf(results);
  }

  /** From here on, rolling back the first n patches leads to the end. */
  ghost predicate RollsOn(
      end: (Files, seq<bool>), files: Files, results: seq<bool>, patches: seq<PatchRecord>, n: nat,
      io: nat -> RestoreIo)
    requires n <= |patches|
  {
    var rest := RollbackAll(files, patches[..n], io);
    end == (rest.0, results + rest.1)
  }

  lemma RollsOnNext(
      end: (Files, seq<bool>), files: Files, results: seq<bool>, patches: seq<PatchRecord>, n: nat,
      io: nat -> RestoreIo)
    requires n < |patches| && RollsOn(end, files, results, patches, n + 1, io)
    ensures var (restored, ok) := RestoreOne(files, patches[n], io(n));
      RollsOn(end, restored, results + [ok], patches, n, io)
  {
    var (restored, ok) := RestoreOne(files, patches[n], io(n));
    var rest := RollbackAll(restored, patches[..n], io);
    assert patches[..n + 1][..n] == patches[..n] && patches[..n + 1][n] == patches[n];
    assert results + ([ok] + rest.1) == results + [ok] + rest.1;
  }

  // ---------------------------------------------------------------------
  // Why rolling everything back, again and again, restores the start
  // ---------------------------------------------------------------------

  /** What a path held before its earliest recorded patch; what it holds now if it has none. */
  function Origin(files: Files, patches: seq<PatchRecord>, path: Path): Option<string>
  {
    if patches == [] then At(files, path)
    else if patches[0].path == path then At(files, patches[0].backup)
    else Origin(files, patches[1..], path)
  }

  ghost predicate Touched(patches: seq<PatchRecord>, path: Path)
  {
    exists i | 0 <= i < |patches| :: patches[i].path == path
  }

  /** Targets lie in the workspace; backups exist outside of it. */
  ghost predicate Sound(files: Files, workspace: iset<Path>, patches: seq<PatchRecord>)
  {
    && "" !in files && "" !in workspace
    && forall i | 0 <= i < |patches| ::
      && patches[i].path in workspace
      && (patches[i].existed <==> patches[i].backup != "")
      && (patches[i].existed ==> patches[i].backup in files && patches[i].backup !in workspace)
  }

  /** Equal on the workspace, and on every backup of the patches. */
  ghost predicate SameBackups(f: Files, g: Files, patches: seq<PatchRecord>)
  {
    forall i | 0 <= i < |patches| :: At(f, patches[i].backup) == At(g, patches[i].backup)
  }

  lemma TouchedTail(patches: seq<PatchRecord>, path: Path)
    requires patches != [] && patches[0].path != path
    ensures Touched(patches[1..], path) <==> Touched(patches, path)
  {
    assert forall i | 0 < i < |patches| :: patches[i] == patches[1..][i - 1];
    assert forall i | 0 <= i < |patches| - 1 :: patches[1..][i] == patches[i + 1];
  }

  lemma {:induction false} OriginFrame(f: Files, g: Files, patches: seq<PatchRecord>, path: Path)
    requires SameBackups(f, g, patches)
    requires !Touched(patches, path) ==> At(f, path) == At(g, path)
    ensures Origin(f, patches, path) == Origin(g, patches, path)
  {
    if patches != [] {
      assert At(f, patches[0].backup) == At(g, patches[0].backup);
      if patches[0].path != path {
        forall i | 0 <= i < |patches[1..]|
          ensures At(f, patches[1..][i].backup) == At(g, patches[1..][i].backup)
        {
          assert patches[1..][i] == patches[i + 1];
        }
        TouchedTail(patches, path);
        OriginFrame(f, g, patches[1..], path);
      }
    }
  }

  lemma {:induction false} OriginAppend(files: Files, patches: seq<PatchRecord>, r: PatchRecord, path: Path)
    ensures Origin(files, patches + [r], path) ==
      if Touched(patches, path) || r.path != path then Origin(files, patches, path) else At(files, r.backup)
  {
    if patches == [] {
      assert Origin(files, [r], path) == if r.path == path then At(files, r.backup) else Origin(files, [], path);
      assert [r][1..] == [];
    } else {
      var tail := patches[1..];
      assert (patches + [r])[1..] == tail + [r];
      OriginAppend(files, tail, r, path);
      if patches[0].path == path {
        assert Touched(patches, path);
      } else {
        TouchedTail(patches, path);
      }
    }
  }

  lemma {:induction false} OriginOfTouched(files: Files, patches: seq<PatchRecord>, first: nat)
    requires first < |patches| && forall i | 0 <= i < first :: patches[i].path != patches[first].path
    ensures Origin(files, patches, patches[first].path) == At(files, patches[first].backup)
  {
    if first > 0 {
      assert patches[1..][first - 1] == patches[first];
      OriginOfTouched(files, patches[1..], first - 1);
    }
  }

  lemma {:induction false} OriginOfUntouched(files: Files, patches: seq<PatchRecord>, path: Path)
    requires !Touched(patches, path)
    ensures Origin(files, patches, path) == At(files, path)
  {
    if patches != [] {
      assert forall i | 0 <= i < |patches[1..]| :: patches[1..][i] == patches[i + 1];
      OriginOfUntouched(files, patches[1..], path);
    }
  }

  /** Rolling back writes targets only, and removes nothing but targets. */
  lemma {:induction false} RollbackFrame(files: Files, patches: seq<PatchRecord>, io: nat -> RestoreIo, path: Path)
    requires !Touched(patches, path)
    ensures At(RollbackAll(files, patches, io).0, path) == At(files, path)
    decreases |patches|
  {
    if patches != [] {
      var last := |patches| - 1;
      assert patches[last].path != path;
      assert !Touched(patches[..last], path);
      RollbackFrame(RestoreOne(files, patches[last], io(last)).0, patches[..last], io, path);
    }
  }

  /**
   * The earliest patch on a path decides: if restoring that one patch worked, the
   * path is back to what the patch found, whatever happened to the later ones.
   */
  lemma {:induction false} EarliestPatchWins(
      files: Files, workspace: iset<Path>, patches: seq<PatchRecord>, io: nat -> RestoreIo, first: nat)
    requires Sound(files, workspace, patches)
    requires first < |patches| && forall i | 0 <= i < first :: patches[i].path != patches[first].path
    ensures var out := RollbackAll(files, patches, io);
      out.1[|patches| - 1 - first]
      ==> At(out.0, patches[first].path) == At(files, patches[first].backup)
    decreases |patches|
  {
    var last := |patches| - 1;
    var (restored, ok) := RestoreOne(files, patches[last], io(last));
    if first == last {
      assert !Touched(patches[..last], patches[last].path);
      RollbackFrame(restored, patches[..last], io, patches[last].path);
    } else {
      RestoreKeepsSound(files, workspace, patches, io(last));
      EarliestPatchWins(restored, workspace, patches[..last], io, first);
      assert patches[..last][first] == patches[first];
      assert At(restored, patches[first].backup) == At(files, patches[first].backup);
    }
  }

  lemma RestoreKeepsSound(files: Files, workspace: iset<Path>, patches: seq<PatchRecord>, io: RestoreIo)
    requires patches != [] && Sound(files, workspace, patches)
    ensures var restored := RestoreOne(files, patches[|patches| - 1], io).0;
      Sound(restored, workspace, patches) && SameBackups(files, restored, patches)
  {
  }

  /**
   * The rollback invariant of a run: undoing every recorded patch, the earliest on
   * each path deciding, gives the workspace the run started from.
   */
  ghost predicate Recoverable(start: Files, files: Files, workspace: iset<Path>, patches: seq<PatchRecord>)
  {
    && Sound(files, workspace, patches)
    && forall p | p in workspace :: Origin(files, patches, p) == At(start, p)
  }

  ghost predicate SameWorkspace(f: Files, g: Files, workspace: iset<Path>)
  {
    forall p | p in workspace :: At(f, p) == At(g, p)
  }

  /** What the trace keeps of one apply: its names, a name clash, its success, and the target before and after. */
  datatype Attempt = Attempt(
    path: Path, existed: bool, backup: Path, temp: Path, clash: bool, kept: bool,
    found: Option<string>, left: Option<string>)
  {
    /** A failure that changed the target. */
    predicate Stray() { !kept && left != found }
  }

  function AttemptOf(c: Change, files: Files, io: ApplyIo): Attempt
  {
    var out := c.Apply(files, io);
    Attempt(c.path, c.existed, c.backup, c.temp,
            c.temp in files || (c.existed && c.backup in files),
            out.kept.Some?, At(files, c.path), At(out.files, c.path))
  }

  /** The assumptions on one apply: a workspace target, fresh auxiliary names outside the workspace. */
  ghost predicate Clean(a: Attempt, workspace: iset<Path>)
  {
    a.path in workspace && a.temp !in workspace && a.temp != "" && (a.existed ==> a.backup !in workspace)
    && !a.clash
  }

  /** When an apply is stray, by I/O outcomes alone. */
  lemma StrayExactly(c: Change, files: Files, io: ApplyIo)
    requires c.Distinct() && "" !in files
    requires c.existed == (c.path in files) && (c.existed ==> files[c.path] == c.before)
    ensures AttemptOf(c, files, io).Stray() <==> if c.existed then SpoilsOld(c, io) else StrandsNew(io)
  {
    FailsExactly(c, files, io);
    if c.existed {
      OldTargetExactly(c, files, io);
    } else {
      NewTargetExactly(c, files, io);
    }
  }

  // ---------------------------------------------------------------------
  // What a list of attempts makes of the start
  // ---------------------------------------------------------------------

  /** One of the attempts on the path succeeded, so it has a recorded patch. */
  predicate Patched(attempts: seq<Attempt>, path: Path)
  {
    exists i | 0 <= i < |attempts| :: attempts[i].kept && attempts[i].path == path
  }

  function SetAt(files: Files, path: Path, text: Option<string>): Files
  {
    if text.Some? then files[path := text.value] else files - {path}
  }

  /**
   * What rolling everything back leads to: the start, except for what failed
   * attempts left on paths that had no recorded patch yet.
   */
  function Baseline(start: Files, attempts: seq<Attempt>): Files
  {
    if attempts == [] then start
    else
      var head, a := attempts[..|attempts| - 1], attempts[|attempts| - 1];
      if a.kept || Patched(head, a.path) then Baseline(start, head)
      else SetAt(Baseline(start, head), a.path, a.left)
  }

  /** The i-th attempt was stray on a path without a recorded patch. */
  predicate Harmful(attempts: seq<Attempt>, i: nat)
    requires i < |attempts|
  {
    attempts[i].Stray() && !Patched(attempts[..i], attempts[i].path)
  }

  /** Attempts on paths without a recorded patch found the baseline there. */
  ghost predicate Coherent(start: Files, attempts: seq<Attempt>)
  {
    forall i | 0 <= i < |attempts| && !Patched(attempts[..i], attempts[i].path) ::
      attempts[i].found == At(Baseline(start, attempts[..i]), attempts[i].path)
  }

  lemma CoherentHead(start: Files, attempts: seq<Attempt>)
    requires attempts != [] && Coherent(start, attempts)
    ensures Coherent(start, attempts[..|attempts| - 1])
  {
    var head := attempts[..|attempts| - 1];
    assert forall i | 0 <= i < |head| :: head[..i] == attempts[..i] && head[i] == attempts[i];
  }

  /** One attempt moves the baseline of a path exactly if it is harmful there. */
  lemma BaselineStep(start: Files, attempts: seq<Attempt>, path: Path)
    requires attempts != [] && Coherent(start, attempts)
    ensures var last := |attempts| - 1;
      At(Baseline(start, attempts), path) ==
        if Harmful(attempts, last) && attempts[last].path == path then attempts[last].left
        else At(Baseline(start, attempts[..last]), path)
  {
    var last := |attempts| - 1;
    assert !Patched(attempts[..last], attempts[last].path) ==>
      attempts[last].found == At(Baseline(start, attempts[..last]), attempts[last].path);
  }

  /** What the last harmful attempt on a path left there, if there is one. */
  function LastHarm(attempts: seq<Attempt>, path: Path): Option<Option<string>>
  {
    if attempts == [] then None
    else
      var last := |attempts| - 1;
      if Harmful(attempts, last) && attempts[last].path == path then Some(attempts[last].left)
      else LastHarm(attempts[..last], path)
  }

  lemma {:induction false} NoHarmExactly(attempts: seq<Attempt>, path: Path)
    ensures LastHarm(attempts, path).None?
      <==> forall i | 0 <= i < |attempts| && attempts[i].path == path :: !Harmful(attempts, i)
  {
    if attempts != [] {
      var last := |attempts| - 1;
      NoHarmExactly(attempts[..last], path);
      forall i | 0 <= i < last ensures Harmful(attempts[..last], i) == Harmful(attempts, i) {
        HarmfulPrefix(attempts, last, i);
      }
    }
  }

  lemma HarmfulPrefix(attempts: seq<Attempt>, n: nat, i: nat)
    requires i < n <= |attempts|
    ensures Harmful(attempts[..n], i) == Harmful(attempts, i) && attempts[..n][i] == attempts[i]
  {
    assert attempts[..n][..i] == attempts[..i];
  }

  /** The start is back on a path exactly if nothing harmed it, or the last harm happened to leave the start. */
  predicate Unharmed(start: Files, attempts: seq<Attempt>, path: Path)
  {
    match LastHarm(attempts, path)
    case None => true
    case Some(left) => left == At(start, path)
  }

  lemma {:induction false} BaselineExactly(start: Files, attempts: seq<Attempt>, path: Path)
    requires Coherent(start, attempts)
    ensures At(Baseline(start, attempts), path) ==
      match LastHarm(attempts, path) case None => At(start, path) case Some(left) => left
    ensures At(Baseline(start, attempts), path) == At(start, path) <==> Unharmed(start, attempts, path)
  {
    if attempts != [] {
      CoherentHead(start, attempts);
      BaselineExactly(start, attempts[..|attempts| - 1], path);
      BaselineStep(start, attempts, path);
    }
  }

  /** A successful apply has its backup in place, or found no file. */
  lemma ApplyKeepsBackup(c: Change, files: Files, io: ApplyIo)
    requires c.existed && c.Distinct()
    ensures var out := c.Apply(files, io);
      out.kept.Some? ==> out.kept.value == c.backup && At(out.files, c.backup) == Some(c.before)
  {
  }

  lemma ApplyOfNewFile(c: Change, files: Files, io: ApplyIo)
    requires !c.existed
    ensures var out := c.Apply(files, io); out.kept.Some? ==> out.kept.value == ""
  {
  }

  /** An apply touches neither the other workspace paths nor any recorded backup. */
  lemma ApplyIsLocal(
      files: Files, workspace: iset<Path>, patches: seq<PatchRecord>, c: Change, io: ApplyIo)
    requires Sound(files, workspace, patches)
    requires c.backup != "" && c.backup != c.temp && Clean(AttemptOf(c, files, io), workspace)
    ensures var out := c.Apply(files, io);
      && "" !in out.files && SameBackups(files, out.files, patches)
      && forall p | p in workspace && p != c.path :: At(out.files, p) == At(files, p)
  {
    var out := c.Apply(files, io);
    forall q | q != c.path && q != c.temp && (c.existed ==> q != c.backup)
      ensures At(out.files, q) == At(files, q)
    {
      ApplyFrame(c, files, io, q);
    }
    assert At(out.files, "") == At(files, "");
  }

  /**
   * Applying a change, with success or not, keeps the baseline recoverable; a failure
   * on a path without a recorded patch moves the baseline to what it left there.
   */
  lemma ApplyKeepsRecoverable(
      base: Files, files: Files, workspace: iset<Path>, patches: seq<PatchRecord>,
      c: Change, id: string, diff: string, io: ApplyIo)
    requires Recoverable(base, files, workspace, patches)
    requires c.existed == (c.path in files) && (c.existed ==> files[c.path] == c.before)
    requires c.backup != "" && c.backup != c.temp
    requires Clean(AttemptOf(c, files, io), workspace)
    ensures var out := c.Apply(files, io);
      match out.kept
      case Some(kept) => Recoverable(base, out.files, workspace, patches + [Record(c, id, kept, diff)])
      case None =>
        Recoverable(if Touched(patches, c.path) then base else SetAt(base, c.path, At(out.files, c.path)),
                    out.files, workspace, patches)
  {
    var out := c.Apply(files, io);
    assert c.existed ==> c.Distinct();
    ApplyIsLocal(files, workspace, patches, c, io);
    if out.kept.None? {
      FailedIsRecoverable(base, files, out.files, workspace, patches, c.path);
    } else {
      if c.existed {
        ApplyKeepsBackup(c, files, io);
      } else {
        ApplyOfNewFile(c, files, io);
      }
      PatchedIsRecoverable(base, files, out.files, workspace, patches, Record(c, id, out.kept.value, diff));
    }
  }

  /** A failed apply keeps the start recoverable exactly if it is not stray, or hits a patched path. */
  lemma FailureExactly(
      base: Files, files: Files, workspace: iset<Path>, patches: seq<PatchRecord>, c: Change, io: ApplyIo)
    requires Recoverable(base, files, workspace, patches)
    requires c.existed == (c.path in files) && (c.existed ==> files[c.path] == c.before)
    requires c.backup != "" && c.backup != c.temp && c.Apply(files, io).kept.None?
    requires Clean(AttemptOf(c, files, io), workspace)
    ensures Recoverable(base, c.Apply(files, io).files, workspace, patches)
      <==> Touched(patches, c.path) || !AttemptOf(c, files, io).Stray()
  {
    var out := c.Apply(files, io).files;
    ApplyKeepsRecoverable(base, files, workspace, patches, c, "", "", io);
    if !Touched(patches, c.path) {
      OriginOfUntouched(files, patches, c.path);
      OriginOfUntouched(out, patches, c.path);
      assert Origin(files, patches, c.path) == At(base, c.path);
      if At(out, c.path) == At(files, c.path) {
        SameBase(SetAt(base, c.path, At(out, c.path)), base, out, workspace, patches);
      }
    }
  }

  lemma SameBase(f: Files, g: Files, files: Files, workspace: iset<Path>, patches: seq<PatchRecord>)
    requires Recoverable(f, files, workspace, patches) && SameWorkspace(f, g, workspace)
    ensures Recoverable(g, files, workspace, patches)
  {
  }

  /** Only the target of a failed apply differs. */
  lemma FailedIsRecoverable(
      base: Files, f: Files, g: Files, workspace: iset<Path>, patches: seq<PatchRecord>, path: Path)
    requires Recoverable(base, f, workspace, patches)
    requires "" !in g && SameBackups(f, g, patches)
    requires forall p | p in workspace && p != path :: At(g, p) == At(f, p)
    ensures Recoverable(if Touched(patches, path) then base else SetAt(base, path, At(g, path)), g, workspace, patches)
  {
    SameBackupsKeepSound(f, g, workspace, patches);
    forall p | p in workspace
      ensures Origin(g, patches, p) == if p == path && !Touched(patches, p) then At(g, p) else At(base, p)
    {
      if p == path && !Touched(patches, p) {
        OriginOfUntouched(g, patches, p);
      } else {
        OriginFrame(f, g, patches, p);
      }
    }
  }

  lemma SameBackupsKeepSound(f: Files, g: Files, workspace: iset<Path>, patches: seq<PatchRecord>)
    requires Sound(f, workspace, patches) && "" !in g && SameBackups(f, g, patches)
    ensures Sound(g, workspace, patches)
  {
    forall i | 0 <= i < |patches| && patches[i].existed ensures patches[i].backup in g {
      assert At(f, patches[i].backup) == At(g, patches[i].backup);
    }
  }

  /** A recorded change of one path, whose backup holds what the path held. */
  lemma PatchedIsRecoverable(
      start: Files, f: Files, g: Files, workspace: iset<Path>, patches: seq<PatchRecord>, r: PatchRecord)
    requires Recoverable(start, f, workspace, patches)
    requires "" !in g && SameBackups(f, g, patches)
    requires forall p | p in workspace && p != r.path :: At(f, p) == At(g, p)
    requires r.path in workspace && (r.existed <==> r.backup != "")
    requires r.existed ==> r.backup in g && r.backup !in workspace
    requires At(g, r.backup) == At(f, r.path)
    ensures Recoverable(start, g, workspace, patches + [r])
  {
    SameBackupsKeepSound(f, g, workspace, patches);
    forall p | p in workspace ensures Origin(g, patches + [r], p) == At(start, p) {
      OriginAppend(g, patches, r, p);
      if Touched(patches, p) || r.path != p {
        OriginFrame(f, g, patches, p);
      } else {
        OriginOfUntouched(f, patches, p);
      }
    }
  }

  lemma RollbackKeepsSound(
      files: Files, workspace: iset<Path>, patches: seq<PatchRecord>, io: nat -> RestoreIo)
    requires Sound(files, workspace, patches)
    ensures var out := RollbackAll(files, patches, io).0;
      Sound(out, workspace, patches) && SameBackups(files, out, patches)
  {
    var out := RollbackAll(files, patches, io).0;
    assert At(out, "") == At(files, "") by {
      assert !Touched(patches, "");
      RollbackFrame(files, patches, io, "");
    }
    forall i | 0 <= i < |patches| ensures At(files, patches[i].backup) == At(out, patches[i].backup) {
      assert patches[i].existed || patches[i].backup == "";
      assert !Touched(patches, patches[i].backup);
      RollbackFrame(files, patches, io, patches[i].backup);
    }
  }

  lemma FirstTouch(patches: seq<PatchRecord>, path: Path) returns (first: nat)
    requires Touched(patches, path)
    ensures first < |patches| && patches[first].path == path
    ensures forall i | 0 <= i < first :: patches[i].path != path
  {
    first := 0;
    while patches[first].path != path
      invariant first < |patches|
      invariant exists i | first <= i < |patches| :: patches[i].path == path
      invariant forall i | 0 <= i < first :: patches[i].path != path
      decreases |patches| - first
    {
      first := first + 1;
    }
  }

  /**
   * A rollback of the whole trajectory whose report has no failure puts every
   * workspace file back to its content, or absence, at the start of the run, and
   * leaves the start recoverable for the attempts that follow.
   */
  lemma RollbackRestoresStart(
      start: Files, files: Files, workspace: iset<Path>, patches: seq<PatchRecord>, io: nat -> RestoreIo)
    requires Recoverable(start, files, workspace, patches)
    requires ReportOf(RollbackAll(files, patches, io).1).failed == 0
    ensures var out := RollbackAll(files, patches, io).0;
      SameWorkspace(out, start, workspace) && Recoverable(start, out, workspace, patches)
  {
    var out := RollbackAll(files, patches, io);
    RollbackKeepsSound(files, workspace, patches, io);
    forall p | p in workspace
      ensures At(out.0, p) == At(start, p) && Origin(out.0, patches, p) == At(start, p)
    {
      if Touched(patches, p) {
        var first := FirstTouch(patches, p);
        EarliestPatchWins(files, workspace, patches, io, first);
        OriginOfTouched(files, patches, first);
      } else {
        RollbackFrame(files, patches, io, p);
        OriginOfUntouched(files, patches, p);
      }
      OriginFrame(files, out.0, patches, p);
    }
  }

  /** With no I/O fault, every recorded patch counts as restored. */
  lemma {:induction false} RollbackWithoutFaults(
      files: Files, workspace: iset<Path>, patches: seq<PatchRecord>, io: nat -> RestoreIo)
    requires Sound(files, workspace, patches)
    requires forall i | 0 <= i < |patches| :: io(i).Smooth?
    ensures var report := ReportOf(RollbackAll(files, patches, io).1);
      report.restored == report.attempted == |patches| && report.failed == 0
    decreases |patches|
  {
    if patches != [] {
      var last := |patches| - 1;
      RestoreKeepsSound(files, workspace, patches, io(last));
      var (restored, ok) := RestoreOne(files, patches[last], io(last));
      RollbackWithoutFaults(restored, workspace, patches[..last], io);
      var rest := RollbackAll(restored, patches[..last], io).1;
      assert forall i | 0 <= i < |rest| :: rest[i];
      assert forall i | 0 <= i < |patches| :: ([ok] + rest)[i];
    }
  }

  /** The four statuses of a report, by what was restored. */
  lemma ReportStatus(results: seq<bool>)
    ensures var report := ReportOf(results);
      && (report.Status() == "skipped" <==> results == [])
      && (report.Status() == "passed" <==> results != [] && forall i | 0 <= i < |results| :: results[i])
      && (report.Status() == "failed" <==> results != [] && forall i | 0 <= i < |results| :: !results[i])
  {
    NoneTrue(results);
  }

  lemma {:induction false} NoneTrue(flags: seq<bool>)
    ensures CountTrue(flags) == 0 <==> forall i | 0 <= i < |flags| :: !flags[i]
  {
    if flags != [] {
      var head := flags[..|flags| - 1];
      NoneTrue(head);
      assert forall i | 0 <= i < |head| :: head[i] == flags[i];
    }
  }
}
