/**
 * What the processor's requests do, as functions: the batch loop of
 * `ProcessFiles` (WildcardProcessor.cs:32-94), undoing a task's backups
 * (lines 452-467), resolving a conflict (lines 474-505), choosing a free
 * file name (lines 507-522) and ordering the history (lines 469-472).
 */
module Requests {
  import opened Text
  import opened Store
  import opened Materializer

  // ---------------------------------------------------------------------
  // The batch loop of ProcessFiles
  // ---------------------------------------------------------------------

  /** One file of a request: a path on the server, or a name with its
      content in base64. */
  datatype FileData = FileData(filePath: string, base64Content: Option<string>)

  /** The store and counter, the task's errors, and whether the loop
      returned early. */
  datatype BatchState = BatchState(progress: Progress, errors: seq<string>, stopped: bool)

  function StartBatch(fs: FileStore): BatchState {
    BatchState(Progress(fs, 0), [], false)
  }

  /** A server path that does not exist ends the loop (lines 44-48). */
  predicate Missing(f: FileData, disk: map<string, Blob>) {
    f.base64Content.None? && f.filePath !in disk
  }

  /** What handling one file's content does: `ProcessFile`, that is
      `FileEffect`, in the processor; any such function in the lemmas about
      the loop. */
  type Handler = (Progress, string, Blob) -> (Progress, seq<string>)

  /** The handler never moves the counter back. */
  ghost predicate Monotone(handle: Handler) {
    forall g: Progress, name: string, blob: Blob :: handle(g, name, blob).0.processed >= g.processed
  }

  /** A file that was handled: its effect, its errors, and one more on the
      counter (line 87). */
  function Handled(b: BatchState, r: (Progress, seq<string>)): BatchState {
    BatchState(Progress(r.0.files, r.0.processed + 1), b.errors + r.1, false)
  }

  /** One pass of the loop, which does nothing once the loop has returned. */
  function FileStep(b: BatchState, f: FileData, disk: map<string, Blob>, decode: string -> Option<Blob>, handle: Handler): (r: BatchState)
    ensures b.stopped ==> r == b
    ensures r.stopped <==> b.stopped || Missing(f, disk)
    ensures |b.errors| <= |r.errors| && r.errors[..|b.errors|] == b.errors
    ensures Monotone(handle) && !r.stopped ==> r.progress.processed >= b.progress.processed + 1
  {
    if b.stopped then b else LiveStep(b, f, disk, decode, handle)
  }

  /** One pass of the loop (lines 41-88).  `disk` holds the files on the
      server; `decode` is `Convert.FromBase64String` followed by reading the
      bytes, none when the text is not base64. */
  function LiveStep(b: BatchState, f: FileData, disk: map<string, Blob>, decode: string -> Option<Blob>, handle: Handler): (r: BatchState)
    ensures r.stopped <==> Missing(f, disk)
    ensures |b.errors| <= |r.errors| && r.errors[..|b.errors|] == b.errors
    ensures Monotone(handle) && !r.stopped ==> r.progress.processed >= b.progress.processed + 1
    ensures Missing(f, disk) ==> r == BatchState(b.progress, b.errors + ["File not found: " + f.filePath], true)
    ensures f.base64Content.Some? && decode(f.base64Content.value).None? ==>
      r == BatchState(Progress(b.progress.files, b.progress.processed + 1),
                      b.errors + ["Invalid base64 content for file " + f.filePath + ": "], false)
  {
    if f.base64Content.None? then
      if f.filePath !in disk then BatchState(b.progress, b.errors + ["File not found: " + f.filePath], true)
      else Handled(b, handle(b.progress, FileName(f.filePath), disk[f.filePath]))
    else
      match decode(f.base64Content.value)
      case None =>
        BatchState(Progress(b.progress.files, b.progress.processed + 1),
                   b.errors + ["Invalid base64 content for file " + f.filePath + ": "], false)
      case Some(blob) => Handled(b, handle(b.progress, FileName(f.filePath), blob))
  }

  /** The first `k` files of the request, in order. */
  function RunBatch(b: BatchState, files: seq<FileData>, disk: map<string, Blob>, decode: string -> Option<Blob>, handle: Handler, k: nat): BatchState
    requires k <= |files|
  {
    if k == 0 then b else FileStep(RunBatch(b, files, disk, decode, handle, k - 1), files[k - 1], disk, decode, handle)
  }

  /** The history line added when the loop runs to its end (line 90). */
  function BatchSummary(processed: nat): string {
    "Processed " + NatToString(processed) + " files"
  }

  /** The loop after `k + 1` files is one more pass after `k`. */
  lemma NextBatch(b: BatchState, files: seq<FileData>, disk: map<string, Blob>, decode: string -> Option<Blob>, handle: Handler, k: nat)
    requires k < |files|
    ensures RunBatch(b, files, disk, decode, handle, k + 1) == FileStep(RunBatch(b, files, disk, decode, handle, k), files[k], disk, decode, handle)
  {
  }

  /** Once the loop has returned, later files change nothing. */
  lemma {:induction false} StoppedStays(b: BatchState, files: seq<FileData>, disk: map<string, Blob>, decode: string -> Option<Blob>, handle: Handler, k: nat, m: nat)
    requires k <= m <= |files| && RunBatch(b, files, disk, decode, handle, k).stopped
    ensures RunBatch(b, files, disk, decode, handle, m) == RunBatch(b, files, disk, decode, handle, k)
    decreases m
  {
    if m > k {
      StoppedStays(b, files, disk, decode, handle, k, m - 1);
      NextBatch(b, files, disk, decode, handle, m - 1);
    }
  }

  /** The loop returns early exactly when some server path among the files
      seen does not exist. */
  lemma {:induction false} StopsIffMissing(b: BatchState, files: seq<FileData>, disk: map<string, Blob>, decode: string -> Option<Blob>, handle: Handler, k: nat)
    requires k <= |files| && !b.stopped
    ensures RunBatch(b, files, disk, decode, handle, k).stopped <==> exists i :: 0 <= i < k && Missing(files[i], disk)
    decreases k
  {
    if k > 0 {
      StopsIffMissing(b, files, disk, decode, handle, k - 1);
      var p, r := RunBatch(b, files, disk, decode, handle, k - 1), RunBatch(b, files, disk, decode, handle, k);
      assert r.stopped <==> p.stopped || Missing(files[k - 1], disk) by {
        NextBatch(b, files, disk, decode, handle, k - 1);
      }
      MissingAmongFirst(files, disk, k);
    }
  }

  /** A missing file among the first `k` is one among the first `k - 1` or
      the `k`-th. */
  lemma MissingAmongFirst(files: seq<FileData>, disk: map<string, Blob>, k: nat)
    requires 0 < k <= |files|
    ensures (exists i :: 0 <= i < k && Missing(files[i], disk)) <==>
      (exists i :: 0 <= i < k - 1 && Missing(files[i], disk)) || Missing(files[k - 1], disk)
  {
    if exists i :: 0 <= i < k && Missing(files[i], disk) {
      var i :| 0 <= i < k && Missing(files[i], disk);
      assert i < k - 1 || i == k - 1;
    }
  }

  /** Errors are only ever added; when the loop ran to the end, the counter
      has gone up at least once per file. */
  lemma {:induction false} BatchCounts(b: BatchState, files: seq<FileData>, disk: map<string, Blob>, decode: string -> Option<Blob>, handle: Handler, k: nat)
    requires k <= |files| && !b.stopped && Monotone(handle)
    ensures var r := RunBatch(b, files, disk, decode, handle, k);
      && |b.errors| <= |r.errors| && r.errors[..|b.errors|] == b.errors
      && (!r.stopped ==> r.progress.processed >= b.progress.processed + k)
    decreases k
  {
    if k > 0 {
      BatchCounts(b, files, disk, decode, handle, k - 1);
      var p := RunBatch(b, files, disk, decode, handle, k - 1);
      var r := RunBatch(b, files, disk, decode, handle, k);
      assert r == FileStep(p, files[k - 1], disk, decode, handle);
      assert r.errors[..|b.errors|] == r.errors[..|p.errors|][..|b.errors|];
    }
  }

  /** The whole request, each file handled by `ProcessFile`. */
  function ProcessRequest(fs: FileStore, files: seq<FileData>, disk: map<string, Blob>, decode: string -> Option<Blob>): BatchState {
    RunBatch(StartBatch(fs), files, disk, decode, FileEffect, |files|)
  }

  /** `ProcessFile` never moves the counter back. */
  lemma FileEffectMonotone()
    ensures Monotone(FileEffect)
  {
  }

  /** The counter is advanced by every write and once more per file, so one
      text file takes it to two against a total of one. */
  lemma OneTextFileCountsTwice(path: string, content: string, fs: FileStore, decode: string -> Option<Blob>)
    requires var name := FileName(path); IsTextName(name) && !IsZipName(name) && !IsYamlName(name)
    ensures ProcessRequest(fs, [FileData(path, None)], map[path := Blob(content, None)], decode).progress.processed == 2
  {
    var b, f, blob := StartBatch(fs), FileData(path, None), Blob(content, None);
    var disk := map[path := blob];
    var r := LiveStep(b, f, disk, decode, FileEffect);
    assert r.progress.processed == 2 by {
      assert FileEffect(b.progress, FileName(path), blob) == (TextEffect(b.progress, content, FileName(path)), []);
    }
    assert ProcessRequest(fs, [f], disk, decode) == r by {
      assert RunBatch(b, [f], disk, decode, FileEffect, 0) == b;
    }
  }

  // ---------------------------------------------------------------------
  // UndoProcessing
  // ---------------------------------------------------------------------

  /** The store after undoing, and whether every move succeeded. */
  datatype UndoState = UndoState(files: FileStore, ok: bool)

  /** The first `k` backups, each `(original, copy)` moved back over its
      original (line 459); a missing copy stops the loop with an exception. */
  function UndoUpTo(fs: FileStore, backups: seq<(Path, Path)>, k: nat): UndoState
    requires k <= |backups|
  {
    if k == 0 then UndoState(fs, true)
    else
      var u := UndoUpTo(fs, backups, k - 1);
      if !u.ok then u
      else match Move(u.files, backups[k - 1].1, backups[k - 1].0, true)
        case None => UndoState(u.files, false)
        case Some(r) => UndoState(r, true)
  }

  /** No two backups share a path, and no copy is an original. */
  predicate Disjoint(backups: seq<(Path, Path)>) {
    forall i, j :: 0 <= i < |backups| && 0 <= j < |backups| ==>
      backups[i].1 != backups[j].0 && (i != j ==> backups[i].0 != backups[j].0 && backups[i].1 != backups[j].1)
  }

  /** With disjoint backups whose copies all exist, undoing succeeds, every
      original holds its copy's content again and every copy is gone. */
  lemma {:induction false} UndoRestores(fs: FileStore, backups: seq<(Path, Path)>, k: nat)
    requires k <= |backups| && Disjoint(backups)
    requires forall i :: 0 <= i < |backups| ==> backups[i].1 in fs
    ensures var u := UndoUpTo(fs, backups, k);
      && u.ok
      && (forall i :: 0 <= i < k ==> backups[i].0 in u.files && u.files[backups[i].0] == fs[backups[i].1] && backups[i].1 !in u.files)
      && (forall i :: k <= i < |backups| ==> backups[i].1 in u.files && u.files[backups[i].1] == fs[backups[i].1])
    decreases k
  {
    if k > 0 {
      UndoRestores(fs, backups, k - 1);
      var u := UndoUpTo(fs, backups, k - 1);
      var b := backups[k - 1];
      assert b.1 in u.files && b.1 != b.0;
      var r := u.files[b.0 := u.files[b.1]] - {b.1};
      assert Move(u.files, b.1, b.0, true) == Some(r);
      forall i | 0 <= i < k
        ensures backups[i].0 in r && r[backups[i].0] == fs[backups[i].1] && backups[i].1 !in r
      {
        if i < k - 1 {
          assert backups[i].0 != b.0 && backups[i].0 != b.1 && backups[i].1 != b.1 && backups[i].1 != b.0;
        }
      }
      forall i | k <= i < |backups|
        ensures backups[i].1 in r && r[backups[i].1] == fs[backups[i].1]
      {
        assert backups[i].1 != b.0 && backups[i].1 != b.1;
      }
    }
  }

  // ---------------------------------------------------------------------
  // GetUniqueFilePath
  // ---------------------------------------------------------------------

  /** The alternatives numbered 1 to `k - 1`. */
  ghost function NumberedBelow(p: Path, k: nat): set<Path> {
    set j: nat | 1 <= j < k :: Numbered(p, j)
  }

  /** They are `k - 1` different paths. */
  lemma {:induction false} NumberedBelowSize(p: Path, k: nat)
    requires k >= 1
    ensures |NumberedBelow(p, k)| == k - 1
    decreases k
  {
    if k > 1 {
      NumberedBelowSize(p, k - 1);
      var prev, x := NumberedBelow(p, k - 1), Numbered(p, k - 1);
      assert x !in prev by {
        if x in prev {
          var j :| 1 <= j < k - 1 && x == Numbered(p, j);
          NumberedInjective(p, k - 1, j);
        }
      }
      assert NumberedBelow(p, k) == prev + {x};
    }
  }

  /** A store cannot hold more alternatives than it has files. */
  lemma TakenBound(fs: FileStore, p: Path, k: nat)
    requires k >= 1 && forall j :: 1 <= j < k ==> Numbered(p, j) in fs
    ensures k - 1 <= |fs|
  {
    var taken := NumberedBelow(p, k);
    NumberedBelowSize(p, k);
    SubsetSize(taken, fs.Keys);
  }

  lemma {:induction false} SubsetSize(a: set<Path>, b: set<Path>)
    requires a <= b
    ensures |a| <= |b|
    decreases |a|
  {
    if a != {} {
      var x :| x in a;
      SubsetSize(a - {x}, b - {x});
    }
  }

  /** The search from counter `k` on, all lower alternatives being taken. */
  function UniqueFrom(fs: FileStore, p: Path, k: nat): (r: nat)
    requires k >= 1 && forall j :: 1 <= j < k ==> Numbered(p, j) in fs
    ensures r >= k && Numbered(p, r) !in fs
    ensures forall j :: 1 <= j < r ==> Numbered(p, j) in fs
    decreases |fs| + 1 - k
  {
    TakenBound(fs, p, k);
    if Numbered(p, k) in fs then
      TakenBound(fs, p, k + 1);
      UniqueFrom(fs, p, k + 1)
    else k
  }

  /** The counter `GetUniqueFilePath` settles on: the least from 1 whose
      alternative is free. */
  function UniqueCounter(fs: FileStore, p: Path): (r: nat)
    ensures r >= 1 && Numbered(p, r) !in fs
    ensures forall j :: 1 <= j < r ==> Numbered(p, j) in fs
  {
    UniqueFrom(fs, p, 1)
  }

  function UniquePath(fs: FileStore, p: Path): (r: Path)
    ensures r !in fs && r.dir == p.dir
  {
    Numbered(p, UniqueCounter(fs, p))
  }

  /** An alternative name is never the name it replaces. */
  lemma NumberedDiffers(p: Path, k: nat)
    ensures Numbered(p, k) != p
  {
    StemAndExtension(p.file);
    var n := Numbered(p, k);
    assert |n.file| > |p.file|;
  }

  // ---------------------------------------------------------------------
  // ResolveConflict
  // ---------------------------------------------------------------------

  /** A file that would have been overwritten, and where its new content
      waits. */
  datatype Conflict = Conflict(filePath: Path, tempPath: Path)

  /** `FirstOrDefault(c => c.FilePath == filePath)`. */
  function FirstConflict(cs: seq<Conflict>, p: Path): (r: Option<nat>)
    ensures r.Some? ==> r.value < |cs| && cs[r.value].filePath == p && forall i :: 0 <= i < r.value ==> cs[i].filePath != p
    ensures r.None? ==> forall i :: 0 <= i < |cs| ==> cs[i].filePath != p
  {
    if cs == [] then None
    else if cs[0].filePath == p then Some(0)
    else match FirstConflict(cs[1..], p)
      case None => None
      case Some(i) => Some(i + 1)
  }

  /** The store after resolving one conflict (lines 484-499); none when the
      move throws.  An unknown resolution leaves the store alone. */
  function ResolveStore(fs: FileStore, c: Conflict, resolution: string): Option<FileStore> {
    if resolution == "overwrite" then Move(fs, c.tempPath, c.filePath, true)
    else if resolution == "rename" then Move(fs, c.tempPath, UniquePath(fs, c.filePath), false)
    else if resolution == "skip" then Some(Delete(fs, c.tempPath))
    else Some(fs)
  }

  /** What each resolution does to a conflict whose new content is waiting
      at a path of its own: "overwrite" puts it in place of the file,
      "rename" keeps the file and puts it at the first free numbered name,
      "skip" drops it and keeps the file; none of them throws. */
  lemma Resolutions(fs: FileStore, c: Conflict)
    requires c.tempPath in fs && c.tempPath != c.filePath
    ensures var r := ResolveStore(fs, c, "overwrite");
      r.Some? && c.filePath in r.value && r.value[c.filePath] == fs[c.tempPath] && c.tempPath !in r.value
    ensures var r := ResolveStore(fs, c, "rename"); var u := UniquePath(fs, c.filePath);
      && r.Some? && u in r.value && r.value[u] == fs[c.tempPath] && c.tempPath !in r.value
      && (c.filePath in fs ==> c.filePath in r.value && r.value[c.filePath] == fs[c.filePath])
    ensures var r := ResolveStore(fs, c, "skip");
      && r.Some? && c.tempPath !in r.value
      && (c.filePath in fs ==> c.filePath in r.value && r.value[c.filePath] == fs[c.filePath])
  {
    var u := UniquePath(fs, c.filePath);
    assert u != c.tempPath;
    NumberedDiffers(c.filePath, UniqueCounter(fs, c.filePath));
  }

  /** A bag without one element: what `TryTake` leaves. */
  function RemoveAt(cs: seq<Conflict>, k: nat): (r: seq<Conflict>)
    requires k < |cs|
    ensures |r| == |cs| - 1 && multiset(r) + multiset{cs[k]} == multiset(cs)
  {
    assert cs == cs[..k] + [cs[k]] + cs[k + 1..];
    cs[..k] + cs[k + 1..]
  }

  // ---------------------------------------------------------------------
  // GetHistory
  // ---------------------------------------------------------------------

  datatype HistoryItem = HistoryItem(taskId: string, timestamp: int, description: string)

  predicate NewestFirst(h: seq<HistoryItem>) {
    forall i, j :: 0 <= i < j < |h| ==> h[i].timestamp >= h[j].timestamp
  }

  /** Insert `x` before the first item no newer than it. */
  function InsertByTime(x: HistoryItem, s: seq<HistoryItem>): (r: seq<HistoryItem>)
    ensures multiset(r) == multiset(s) + multiset{x}
  {
    if s == [] || s[0].timestamp <= x.timestamp then [x] + s
    else
      assert s == [s[0]] + s[1..];
      [s[0]] + InsertByTime(x, s[1..])
  }

  /** Inserting into a list ordered newest first keeps it so. */
  lemma {:induction false} InsertKeepsOrder(x: HistoryItem, s: seq<HistoryItem>)
    requires NewestFirst(s)
    ensures NewestFirst(InsertByTime(x, s))
    decreases |s|
  {
    if s != [] && s[0].timestamp > x.timestamp {
      var u := s[1..];
      InsertKeepsOrder(x, u);
      InsertBelow(x, u, s[0].timestamp);
      assert InsertByTime(x, s) == [s[0]] + InsertByTime(x, u);
    }
  }

  /** Inserting an item no newer than `m` among items no newer than `m`
      gives items no newer than `m`. */
  lemma {:induction false} InsertBelow(x: HistoryItem, u: seq<HistoryItem>, m: int)
    requires x.timestamp <= m && forall i :: 0 <= i < |u| ==> u[i].timestamp <= m
    ensures forall j :: 0 <= j < |InsertByTime(x, u)| ==> InsertByTime(x, u)[j].timestamp <= m
    decreases |u|
  {
    if u != [] && u[0].timestamp > x.timestamp {
      InsertBelow(x, u[1..], m);
      assert InsertByTime(x, u) == [u[0]] + InsertByTime(x, u[1..]);
    }
  }

  /** `OrderByDescending(h => h.Timestamp)`: the same items, newest first. */
  function SortNewestFirst(h: seq<HistoryItem>): (r: seq<HistoryItem>)
    ensures NewestFirst(r) && multiset(r) == multiset(h)
  {
    if h == [] then []
    else
      assert h == [h[0]] + h[1..];
      var t := SortNewestFirst(h[1..]);
      InsertKeepsOrder(h[0], t);
      InsertByTime(h[0], t)
  }
}
