// The workspace fingerprint: what the byte stream fed to the digest tells of the
// fingerprinted files, and the counters of a snapshot add up.
module Fingerprint {
  import opened Text
  import opened Utf8

  /** A relative path as the walk returns it; undecodable bytes of a name are lone surrogates. */
  type Path = seq<CodePoint>

  /** Text that encodes in ASCII, without NUL. */
  type AsciiText = s: string | forall i | 0 <= i < |s| :: 0 < s[i] as int < 0x80

  function Ascii(s: AsciiText): (bytes: seq<Byte>)
    ensures |bytes| == |s| && forall i | 0 <= i < |s| :: bytes[i] == s[i] as int
  {
    seq(|s|, i requires 0 <= i < |s| => s[i] as int)
  }

  lemma AsciiInjective(s: AsciiText, t: AsciiText)
    requires Ascii(s) == Ascii(t)
    ensures s == t
  {
    assert |s| == |Ascii(s)| == |t|;
    forall i | 0 <= i < |s| ensures s[i] == t[i] {
      assert s[i] as int == Ascii(s)[i] == t[i] as int;
    }
  }

  /** A fingerprinted file: its path, size and hexadecimal content hash. */
  datatype Entry = Entry(path: Path, size: nat, hash: AsciiText)

  /** What the walk finds: a readable file, or one whose stat or read raised OSError. */
  datatype Found = Readable(entry: Entry) | Unreadable(path: Path)

  const NUL: Byte := 0

  function EntryBytes(e: Entry): seq<Byte>
  {
    Encode(e.path) + [NUL] + (Ascii(Decimal(e.size)) + [NUL] + (Ascii(e.hash) + [NUL]))
  }

  function Framed(entries: seq<Entry>): (parts: seq<seq<Byte>>)
    ensures |parts| == |entries| && forall i | 0 <= i < |entries| :: parts[i] == EntryBytes(entries[i])
  {
    seq(|entries|, i requires 0 <= i < |entries| => EntryBytes(entries[i]))
  }

  /** What the loop feeds to the digest, entry after entry. */
  function StreamOf(entries: seq<Entry>): seq<Byte>
  {
    Flatten(Framed(entries))
  }

  lemma StreamSnoc(entries: seq<Entry>, e: Entry)
    ensures StreamOf(entries + [e]) == StreamOf(entries) + EntryBytes(e)
  {
    var bytes := EntryBytes(e);
    assert Framed(entries + [e]) == Framed(entries) + [bytes];
    FlattenConcat(Framed(entries), [bytes]);
    FlattenOne(bytes);
  }

  lemma StreamCons(entries: seq<Entry>)
    requires entries != []
    ensures StreamOf(entries) == EntryBytes(entries[0]) + StreamOf(entries[1..])
  {
    var bytes := EntryBytes(entries[0]);
    assert Framed(entries) == [bytes] + Framed(entries[1..]);
    FlattenCons(bytes, Framed(entries[1..]));
  }

  // ---------------------------------------------------------------------
  // What a stream tells
  // ---------------------------------------------------------------------

  /** File names hold no NUL. */
  ghost predicate NulFree(entries: seq<Entry>)
  {
    forall e | e in entries :: 0 !in e.path
  }

  function ShownEntry(e: Entry): Entry
  {
    e.(path := Replaced(e.path))
  }

  /** The entries as the stream shows them: every surrogate of a path is a question mark. */
  function ShownEntries(entries: seq<Entry>): (shown: seq<Entry>)
    ensures |shown| == |entries|
    ensures forall i | 0 <= i < |entries| :: shown[i] == ShownEntry(entries[i])
  {
    seq(|entries|, i requires 0 <= i < |entries| => ShownEntry(entries[i]))
  }

  lemma EntryIsPrefixFree(a: Entry, x: seq<Byte>, b: Entry, y: seq<Byte>)
    requires 0 !in a.path && 0 !in b.path
    requires EntryBytes(a) + x == EntryBytes(b) + y
    ensures ShownEntry(a) == ShownEntry(b) && x == y
  {
    var restA, restB := Ascii(a.hash) + [NUL] + x, Ascii(b.hash) + [NUL] + y;
    var sizeA, sizeB := Ascii(Decimal(a.size)), Ascii(Decimal(b.size));
    var tailA, tailB := sizeA + [NUL] + restA, sizeB + [NUL] + restB;
    assert Encode(a.path) + [NUL] + tailA == EntryBytes(a) + x;
    assert Encode(b.path) + [NUL] + tailB == EntryBytes(b) + y;
    EncodeKeepsNul(a.path);
    EncodeKeepsNul(b.path);
    SplitUnique(Encode(a.path), tailA, Encode(b.path), tailB, NUL);
    SplitUnique(sizeA, restA, sizeB, restB, NUL);
    SplitUnique(Ascii(a.hash), x, Ascii(b.hash), y, NUL);
    EncodeExactly(a.path, b.path);
    AsciiInjective(Decimal(a.size), Decimal(b.size));
    DecimalInjective(a.size, b.size);
    AsciiInjective(a.hash, b.hash);
  }

  /** Lists of files have one stream exactly if their paths differ in surrogates against question marks only. */
  lemma {:induction false} SameStreamExactly(a: seq<Entry>, b: seq<Entry>)
    requires NulFree(a) && NulFree(b)
    ensures StreamOf(a) == StreamOf(b) <==> ShownEntries(a) == ShownEntries(b)
  {
    if StreamOf(a) == StreamOf(b) {
      StreamDecides(a, b);
    }
    if ShownEntries(a) == ShownEntries(b) {
      StreamOfShown(a);
      StreamOfShown(b);
    }
  }

  lemma {:induction false} StreamDecides(a: seq<Entry>, b: seq<Entry>)
    requires NulFree(a) && NulFree(b) && StreamOf(a) == StreamOf(b)
    ensures ShownEntries(a) == ShownEntries(b)
  {
    if a == [] || b == [] {
      OnlyEmptyStream(a);
      OnlyEmptyStream(b);
    } else {
      assert a[0] in a && b[0] in b;
      StreamCons(a);
      StreamCons(b);
      EntryIsPrefixFree(a[0], StreamOf(a[1..]), b[0], StreamOf(b[1..]));
      StreamDecides(a[1..], b[1..]);
      ShownCons(a);
      ShownCons(b);
    }
  }

  lemma OnlyEmptyStream(entries: seq<Entry>)
    ensures StreamOf(entries) == [] <==> entries == []
  {
    if entries != [] {
      StreamCons(entries);
      assert |EntryBytes(entries[0])| > 0;
    }
  }

  lemma ShownCons(entries: seq<Entry>)
    requires entries != []
    ensures ShownEntries(entries) == [ShownEntry(entries[0])] + ShownEntries(entries[1..])
  {
  }

  lemma StreamOfShown(entries: seq<Entry>)
    ensures StreamOf(ShownEntries(entries)) == StreamOf(entries)
  {
    forall i | 0 <= i < |entries| ensures EntryBytes(ShownEntry(entries[i])) == EntryBytes(entries[i]) {
      EncodeReplaced(entries[i].path);
    }
    assert Framed(ShownEntries(entries)) == Framed(entries);
  }

  /** No byte of a name was undecodable. */
  predicate SurrogateFree(path: Path)
  {
    forall i | 0 <= i < |path| :: !IsSurrogate(path[i])
  }

  ghost predicate AllSurrogateFree(entries: seq<Entry>)
  {
    forall i | 0 <= i < |entries| :: SurrogateFree(entries[i].path)
  }

  lemma ShownIsSame(entries: seq<Entry>)
    requires AllSurrogateFree(entries)
    ensures ShownEntries(entries) == entries
  {
    forall i | 0 <= i < |entries| ensures ShownEntry(entries[i]) == entries[i] {
      assert Replaced(entries[i].path) == entries[i].path;
    }
  }

  /** Among paths that decode, equal streams come from equal lists of files. */
  lemma StreamIsUniquelyDecodable(a: seq<Entry>, b: seq<Entry>)
    requires NulFree(a) && NulFree(b) && AllSurrogateFree(a) && AllSurrogateFree(b)
    requires StreamOf(a) == StreamOf(b)
    ensures a == b
  {
    SameStreamExactly(a, b);
    ShownIsSame(a);
    ShownIsSame(b);
  }

  /** A file named by the byte 0xFF and one named "?" with the same content have one stream. */
  lemma SurrogateConfuses(size: nat, hash: AsciiText)
    ensures var a, b := [Entry([0xDCFF], size, hash)], [Entry([QUESTION_MARK], size, hash)];
      NulFree(a) && NulFree(b) && a != b && StreamOf(a) == StreamOf(b)
  {
    var a, b := [Entry([0xDCFF], size, hash)], [Entry([QUESTION_MARK], size, hash)];
    assert a[0].path[0] != b[0].path[0];
    assert Replaced(a[0].path) == Replaced(b[0].path);
    SameStreamExactly(a, b);
  }

  predicate Unambiguous(path: Path)
  {
    forall i | 0 <= i < |path| :: !IsSurrogate(path[i]) && path[i] != QUESTION_MARK
  }

  /** No other list of files has this stream. */
  ghost predicate TellsFiles(a: seq<Entry>)
  {
    forall b: seq<Entry> | NulFree(b) && StreamOf(b) == StreamOf(a) :: b == a
  }

  /** The stream of a list tells the files exactly if no path holds a surrogate or a question mark. */
  lemma StreamTellsExactly(a: seq<Entry>)
    requires NulFree(a)
    ensures TellsFiles(a) <==> forall i | 0 <= i < |a| :: Unambiguous(a[i].path)
  {
    if forall i | 0 <= i < |a| :: Unambiguous(a[i].path) {
      forall b: seq<Entry> | NulFree(b) && StreamOf(b) == StreamOf(a) ensures b == a {
        SameStreamExactly(b, a);
        UnambiguousDecides(b, a);
      }
    } else {
      var i :| 0 <= i < |a| && !Unambiguous(a[i].path);
      var b := Confused(a, i);
      assert NulFree(b) && StreamOf(b) == StreamOf(a) && b != a;
    }
  }

  lemma UnambiguousDecides(b: seq<Entry>, a: seq<Entry>)
    requires ShownEntries(b) == ShownEntries(a)
    requires forall i | 0 <= i < |a| :: Unambiguous(a[i].path)
    ensures b == a
  {
    assert |b| == |ShownEntries(b)| == |a|;
    forall i | 0 <= i < |a| ensures b[i] == a[i] {
      assert ShownEntry(b[i]) == ShownEntries(b)[i] == ShownEntry(a[i]);
      PathDecides(b[i].path, a[i].path);
    }
  }

  lemma PathDecides(q: Path, p: Path)
    requires Replaced(q) == Replaced(p) && Unambiguous(p)
    ensures q == p
  {
    assert |q| == |Replaced(q)| == |p|;
    forall k | 0 <= k < |p| ensures q[k] == p[k] {
      assert Shown(q[k]) == Replaced(q)[k] == Shown(p[k]);
    }
  }

  /** Another list with the same stream: in one ambiguous path, a surrogate and a question mark change places. */
  lemma Confused(a: seq<Entry>, i: nat) returns (b: seq<Entry>)
    requires NulFree(a) && i < |a| && !Unambiguous(a[i].path)
    ensures NulFree(b) && StreamOf(b) == StreamOf(a) && b != a
  {
    var p := a[i].path;
    var k :| 0 <= k < |p| && (IsSurrogate(p[k]) || p[k] == QUESTION_MARK);
    var q: Path := p[k := if IsSurrogate(p[k]) then QUESTION_MARK else 0xDCFF];
    assert q[k] != p[k] && Replaced(q) == Replaced(p);
    b := a[i := a[i].(path := q)];
    assert b[i].path != a[i].path;
    assert a[i] in a;
    assert ShownEntries(b) == ShownEntries(a);
    SameStreamExactly(b, a);
  }

  // ---------------------------------------------------------------------
  // The snapshot loop
  // ---------------------------------------------------------------------

  datatype Snapshot = Snapshot(
    stream: seq<Byte>, fileCount: nat, fingerprinted: nat, totalBytes: nat, truncated: bool,
    recorded: seq<Entry>, errors: seq<Path>)

  function ReadableOf(found: seq<Found>): seq<Entry>
  {
    if found == [] then []
    else
      var f := found[|found| - 1];
      ReadableOf(found[..|found| - 1]) + if f.Readable? then [f.entry] else []
  }

  function UnreadableOf(found: seq<Found>): seq<Path>
  {
    if found == [] then []
    else
      var f := found[|found| - 1];
      UnreadableOf(found[..|found| - 1]) + if f.Unreadable? then [f.path] else []
  }

  function SizeOf(entries: seq<Entry>): nat
  {
    if entries == [] then 0 else SizeOf(entries[..|entries| - 1]) + entries[|entries| - 1].size
  }

  function Prefix<T>(s: seq<T>, n: int): seq<T>
  {
    if n <= 0 then [] else if n >= |s| then s else s[..n]
  }

  /** The snapshot of a walk that ends here. */
  ghost function Summary(found: seq<Found>, maxRecorded: int): Snapshot
  {
    SummaryOf(ReadableOf(found), UnreadableOf(found), maxRecorded)
  }

  ghost function SummaryOf(entries: seq<Entry>, errors: seq<Path>, maxRecorded: int): Snapshot
  {
    Snapshot(StreamOf(entries), |entries| + |errors|, |entries|, SizeOf(entries), false,
             Prefix(entries, maxRecorded), errors)
  }

  /** The snapshot with one more file seen. */
  function Grown(s: Snapshot, f: Found, maxRecorded: int): Snapshot
  {
    match f
    case Unreadable(path) => s.(fileCount := s.fileCount + 1, errors := s.errors + [path])
    case Readable(e) =>
      Snapshot(s.stream + EntryBytes(e), s.fileCount + 1, s.fingerprinted + 1, s.totalBytes + e.size, s.truncated,
               if |s.recorded| < maxRecorded then s.recorded + [e] else s.recorded, s.errors)
  }

  lemma SummaryStep(found: seq<Found>, f: Found, maxRecorded: int)
    ensures Summary(found + [f], maxRecorded) == Grown(Summary(found, maxRecorded), f, maxRecorded)
  {
    FoundSnoc(found, f);
    if f.Readable? {
      SummaryReadable(ReadableOf(found), UnreadableOf(found), f.entry, maxRecorded);
    }
  }

  lemma FoundSnoc(found: seq<Found>, f: Found)
    ensures ReadableOf(found + [f]) == if f.Readable? then ReadableOf(found) + [f.entry] else ReadableOf(found)
    ensures UnreadableOf(found + [f]) == if f.Readable? then UnreadableOf(found) else UnreadableOf(found) + [f.path]
  {
    assert (found + [f])[..|found|] == found;
  }

  lemma SummaryReadable(entries: seq<Entry>, errors: seq<Path>, e: Entry, maxRecorded: int)
    ensures SummaryOf(entries + [e], errors, maxRecorded)
         == Grown(SummaryOf(entries, errors, maxRecorded), Readable(e), maxRecorded)
  {
    StreamSnoc(entries, e);
    PrefixSnoc(entries, e, maxRecorded);
    assert (entries + [e])[..|entries|] == entries;
  }

  lemma PrefixSnoc<T>(s: seq<T>, x: T, n: int)
    ensures Prefix(s + [x], n) == if |Prefix(s, n)| < n then Prefix(s, n) + [x] else Prefix(s, n)
  {
  }

  /**
   * The snapshot covers the first seen files of the walk: all of them, or those up to
   * the first one past the limit.
   */
  ghost predicate Covers(s: Snapshot, found: seq<Found>, maxRecorded: int, seen: nat)
  {
    && seen <= |found| && (s.truncated <==> seen < |found|)
    && s == Summary(found[..seen], maxRecorded).(truncated := s.truncated, fileCount := s.fileCount)
    && s.fileCount == s.fingerprinted + |s.errors| + if s.truncated then 1 else 0
  }

  /** The loop has summed up the first i files. */
  ghost predicate Summed(s: Snapshot, found: seq<Found>, maxRecorded: int, i: nat)
  {
    i <= |found| && s == Summary(found[..i], maxRecorded)
  }

  lemma SummedNext(s: Snapshot, found: seq<Found>, maxRecorded: int, i: nat)
    requires i < |found| && Summed(s, found, maxRecorded, i)
    ensures Summed(Grown(s, found[i], maxRecorded), found, maxRecorded, i + 1)
  {
    assert found[..i + 1] == found[..i] + [found[i]];
    SummaryStep(found[..i], found[i], maxRecorded);
  }

  lemma SummedCovers(s: Snapshot, found: seq<Found>, maxRecorded: int, i: nat)
    requires Summed(s, found, maxRecorded, i)
    ensures i == |found| ==> Covers(s, found, maxRecorded, i)
    ensures i < |found| ==> Covers(s.(truncated := true, fileCount := s.fileCount + 1), found, maxRecorded, i)
  {
  }

  /** On every exit file_count = fingerprinted + errors + (1 if truncated). */
  method SnapshotWorkspace(found: seq<Found>, maxFiles: int, maxRecorded: int) returns (s: Snapshot, ghost seen: nat)
    ensures Covers(s, found, maxRecorded, seen)
    ensures s.truncated ==> s.fingerprinted >= maxFiles
    ensures maxFiles >= 0 ==> s.fingerprinted <= maxFiles
  {
    var stream: seq<Byte>, recorded: seq<Entry>, errors: seq<Path> := [], [], [];
    var fileCount: nat, fingerprinted: nat, totalBytes: nat := 0, 0, 0;
    seen := 0;
    for i := 0 to |found|
      invariant seen == i
      invariant maxFiles >= 0 ==> fingerprinted <= maxFiles
      invariant Summed(Snapshot(stream, fileCount, fingerprinted, totalBytes, false, recorded, errors),
                       found, maxRecorded, i)
    {
      ghost var before := Snapshot(stream, fileCount, fingerprinted, totalBytes, false, recorded, errors);
      SummedNext(before, found, maxRecorded, i);
      SummedCovers(before, found, maxRecorded, i);
      fileCount := fileCount + 1;
      if fingerprinted >= maxFiles {
        return Snapshot(stream, fileCount, fingerprinted, totalBytes, true, recorded, errors), seen;
      }
      seen := seen + 1;
      if found[i].Unreadable? {
        errors := errors + [found[i].path];
        continue;
      }
      var entry := found[i].entry;
      fingerprinted := fingerprinted + 1;
      totalBytes := totalBytes + entry.size;
      stream := stream + EntryBytes(entry);
      if |recorded| < maxRecorded {
        recorded := recorded + [entry];
      }
    }
    s := Snapshot(stream, fileCount, fingerprinted, totalBytes, false, recorded, errors);
    SummedCovers(s, found, maxRecorded, |found|);
  }

  /**
   * Two snapshots with one digest stream fingerprinted the same number of files, in the
   * same order, with the same sizes and hashes, and under paths that differ at most in
   * surrogates against question marks; so do the records. Where every name decodes, the
   * files and the records are the same.
   */
  lemma SameStreamSameFiles(
      s: Snapshot, a: seq<Found>, m: nat, t: Snapshot, b: seq<Found>, n: nat, maxRecorded: int)
    requires Covers(s, a, maxRecorded, m) && Covers(t, b, maxRecorded, n)
    requires NulFree(ReadableOf(a[..m])) && NulFree(ReadableOf(b[..n]))
    requires s.stream == t.stream
    ensures var x, y := ReadableOf(a[..m]), ReadableOf(b[..n]);
      && ShownEntries(x) == ShownEntries(y) && ShownEntries(s.recorded) == ShownEntries(t.recorded)
      && (AllSurrogateFree(x) && AllSurrogateFree(y) ==> x == y && s.recorded == t.recorded)
    ensures s.fingerprinted == t.fingerprinted && s.totalBytes == t.totalBytes
  {
    var x, y := ReadableOf(a[..m]), ReadableOf(b[..n]);
    SameStreamExactly(x, y);
    RecordedShown(x, maxRecorded);
    RecordedShown(y, maxRecorded);
    if AllSurrogateFree(x) && AllSurrogateFree(y) {
      StreamIsUniquelyDecodable(x, y);
    }
  }

  lemma RecordedShown(entries: seq<Entry>, maxRecorded: int)
    ensures ShownEntries(Prefix(entries, maxRecorded)) == Prefix(ShownEntries(entries), maxRecorded)
    ensures SizeOf(entries) == SizeOf(ShownEntries(entries))
  {
    SizeOfShown(entries);
  }

  lemma {:induction false} SizeOfShown(entries: seq<Entry>)
    ensures SizeOf(ShownEntries(entries)) == SizeOf(entries)
  {
    if entries != [] {
      var head := entries[..|entries| - 1];
      SizeOfShown(head);
      assert ShownEntries(entries)[..|entries| - 1] == ShownEntries(head);
    }
  }
}
