/**
 * `WildcardProcessor` and `ProcessingTask` (WildcardProcessor.cs:19-548):
 * the registry of tasks, the history, and the destination folder, with the
 * methods that change them, each proved against the functions of modules
 * `Materializer` and `Requests`.
 */
module Processor {
  import opened Text
  import opened YamlParser
  import opened WildcardLine
  import opened Store
  import opened Materializer
  import opened Requests

  /** `ProcessingStatusEnum` (lines 543-548). */
  datatype StatusEnum = InProgress | Completed | Failed

  /** `ProcessingStatusEnum.ToString()`. */
  function StatusName(s: StatusEnum): (r: string)
    ensures r != "Not Found"
  {
    match s
    case InProgress => "InProgress"
    case Completed => "Completed"
    case Failed => "Failed"
  }

  /** Different states have different names. */
  lemma StatusNamesDiffer(a: StatusEnum, b: StatusEnum)
    requires StatusName(a) == StatusName(b)
    ensures a == b
  {
    assert StatusName(a)[0] == StatusName(b)[0];
  }

  /** `ProcessingTask` (lines 525-534). */
  class ProcessingTask {
    const id: string
    const totalFiles: nat
    var processedFiles: nat
    var status: StatusEnum
    var errors: seq<string>
    /** `Backups`: pairs (original, backup copy). */
    var backups: seq<(Path, Path)>
    var conflicts: seq<Conflict>

    constructor(id: string, totalFiles: nat)
      ensures this.id == id && this.totalFiles == totalFiles
      ensures processedFiles == 0 && status == InProgress
      ensures errors == [] && backups == [] && conflicts == []
    {
      this.id := id;
      this.totalFiles := totalFiles;
      processedFiles := 0;
      status := InProgress;
      errors := [];
      backups := [];
      conflicts := [];
    }
  }

  /** `ProcessingStatus` (lines 536-541), with the progress as the pair of
      counts it is divided from. */
  datatype ProcessingStatus = ProcessingStatus(status: string, processedFiles: nat, totalFiles: nat, conflicts: seq<Conflict>)

  /** What a request returns when its body throws. */
  datatype Outcome = Returned(value: bool) | Threw

  class WildcardProcessor {
    var tasks: map<string, ProcessingTask>
    var history: seq<HistoryItem>
    /** The destination folder. */
    var store: FileStore

    constructor(initial: FileStore)
      ensures tasks == map[] && history == [] && store == initial
      ensures Valid()
    {
      tasks := map[];
      history := [];
      store := initial;
    }

    /** Every task is filed under its own id, so no two ids share one task
        object. */
    ghost predicate Valid()
      reads this
    {
      forall t :: t in tasks ==> tasks[t].id == t
    }

    /** `GetStatus` (lines 438-450). */
    function GetStatus(taskId: string): (r: ProcessingStatus)
      reads this, tasks.Values
      ensures taskId !in tasks <==> r.status == "Not Found"
      ensures taskId !in tasks ==> r == ProcessingStatus("Not Found", 0, 0, [])
      ensures taskId in tasks ==>
        var t := tasks[taskId];
        r == ProcessingStatus(StatusName(t.status), t.processedFiles, t.totalFiles, t.conflicts)
    {
      if taskId in tasks then
        var t := tasks[taskId];
        ProcessingStatus(StatusName(t.status), t.processedFiles, t.totalFiles, t.conflicts)
      else ProcessingStatus("Not Found", 0, 0, [])
    }

    /** `GetHistory` (lines 469-472). */
    function GetHistory(): (r: seq<HistoryItem>)
      reads this
      ensures NewestFirst(r) && multiset(r) == multiset(history)
    {
      SortNewestFirst(history)
    }

    /** `WriteToMainCategory(..., string line)` (lines 391-401). */
    method WriteLineToMainCategory(task: ProcessingTask, top: string, cur: string, line: string)
      modifies this`store, task`processedFiles
      ensures Progress(store, task.processedFiles) == Materializer.WriteLine(old(Progress(store, task.processedFiles)), top, cur, line)
    {
      store := Append(store, Target(top, cur), line);
      task.processedFiles := task.processedFiles + 1;
    }

    /** `WriteToMainCategory(..., List<string> lines)` (lines 403-413). */
    method WriteLinesToMainCategory(task: ProcessingTask, top: string, cur: string, lines: seq<string>)
      modifies this`store, task`processedFiles
      ensures Progress(store, task.processedFiles) == Materializer.WriteLines(old(Progress(store, task.processedFiles)), top, cur, lines)
    {
      store := Overwrite(store, Target(top, cur), lines);
      task.processedFiles := task.processedFiles + 1;
    }

    /** `TraverseYaml` (lines 334-389). */
    method TraverseYaml(task: ProcessingTask, top: string, cur: string, v: Node)
      modifies this`store, task`processedFiles
      ensures Progress(store, task.processedFiles) == Traverse(old(Progress(store, task.processedFiles)), top, cur, v)
      decreases v, 2
    {
      match v
      case Map(es) =>
        TraverseMap(task, top, v);
      case Seq(items) =>
        if |items| == 1 && items[0].Scalar? {
          WriteLineToMainCategory(task, top, cur, ProcessWildcardLine(items[0].value));
        } else {
          var processedLines := TraverseList(task, top, v);
          if |processedLines| > 0 {
            WriteLinesToMainCategory(task, top, cur, processedLines);
          }
        }
      case Scalar(s) =>
        WriteLineToMainCategory(task, top, cur, ProcessWildcardLine(s));
    }

    /** The loop over a map's pairs (lines 339-347, and 368-371 for a map
        inside a list). */
    method TraverseMap(task: ProcessingTask, top: string, m: Node)
      requires m.Map?
      modifies this`store, task`processedFiles
      ensures Progress(store, task.processedFiles) == Entries(old(Progress(store, task.processedFiles)), top, m, |m.entries|)
      decreases m, 1
    {
      ghost var g := Progress(store, task.processedFiles);
      for i := 0 to |m.entries|
        invariant Progress(store, task.processedFiles) == Entries(g, top, m, i)
      {
        var (key, value) := m.entries[i];
        assert m.entries[i] in m.entries;
        TraverseYaml(task, top, key, value);
      }
    }

    /** The loop over a list's items (lines 361-375): the transformed
        scalars, the maps walked along the way. */
    method TraverseList(task: ProcessingTask, top: string, l: Node) returns (processedLines: seq<string>)
      requires l.Seq?
      modifies this`store, task`processedFiles
      ensures (Progress(store, task.processedFiles), processedLines) == Items(old(Progress(store, task.processedFiles)), top, l, |l.items|)
      decreases l, 1
    {
      ghost var g := Progress(store, task.processedFiles);
      processedLines := [];
      for i := 0 to |l.items|
        invariant (Progress(store, task.processedFiles), processedLines) == Items(g, top, l, i)
      {
        var item := l.items[i];
        assert item in l.items;
        match item
        case Scalar(line) =>
          processedLines := processedLines + [ProcessWildcardLine(line)];
        case Map(_) =>
          TraverseMap(task, top, item);
        case Seq(_) =>
      }
    }

    /** `ProcessYamlFile` (lines 316-332). */
    method ProcessYamlFile(task: ProcessingTask, yamlContent: string)
      modifies this`store, task`processedFiles
      ensures Progress(store, task.processedFiles) == YamlEffect(old(Progress(store, task.processedFiles)), yamlContent)
    {
      ghost var g := Progress(store, task.processedFiles);
      var parsedYaml := Parse(yamlContent);
      for i := 0 to |parsedYaml.entries|
        invariant Progress(store, task.processedFiles) == TopLevel(g, parsedYaml, i)
      {
        var (topLevelKey, topLevelValue) := parsedYaml.entries[i];
        TraverseYaml(task, topLevelKey, topLevelKey, topLevelValue);
      }
    }

    /** `ProcessTextContent` (lines 415-425). */
    method ProcessTextContent(task: ProcessingTask, content: string, fileName: string)
      modifies this`store, task`processedFiles
      ensures Progress(store, task.processedFiles) == TextEffect(old(Progress(store, task.processedFiles)), content, fileName)
    {
      var lines := SplitOn(content, '\n');
      var processedLines := TransformAll(lines);
      store := Overwrite(store, Path([], fileName), processedLines);
      task.processedFiles := task.processedFiles + 1;
    }

    /** `ProcessZipFile` (lines 122-150), on an archive already opened. */
    method ProcessZipFile(task: ProcessingTask, entries: seq<Entry>)
      modifies this`store, task`processedFiles
      ensures Progress(store, task.processedFiles) == ZipEffect(old(Progress(store, task.processedFiles)), entries, |entries|)
    {
      ghost var g := Progress(store, task.processedFiles);
      for i := 0 to |entries|
        invariant Progress(store, task.processedFiles) == ZipEffect(g, entries, i)
      {
        var entry := entries[i];
        if IsYamlName(entry.fullName) {
          ProcessYamlFile(task, entry.content);
        } else if IsTextName(entry.fullName) {
          ProcessTextContent(task, entry.content, entry.fullName);
        }
      }
    }

    /** `ProcessFile` (lines 96-120): dispatch on the file name's extension;
        an archive that cannot be opened is recorded as an error. */
    method ProcessFile(task: ProcessingTask, fileName: string, blob: Blob)
      modifies this`store, task`processedFiles, task`errors
      ensures var r := FileEffect(old(Progress(store, task.processedFiles)), fileName, blob);
        Progress(store, task.processedFiles) == r.0 && task.errors == old(task.errors) + r.1
    {
      if IsZipName(fileName) {
        match blob.archive
        case None =>
          task.errors := task.errors + ["Error processing " + fileName + ": "];
        case Some(entries) =>
          ProcessZipFile(task, entries);
      } else if IsYamlName(fileName) {
        ProcessYamlFile(task, blob.text);
      } else if IsTextName(fileName) {
        ProcessTextContent(task, blob.text, fileName);
      }
    }

    /** One pass of the loop of `ProcessFiles` (lines 41-88); true when the
        loop must return. */
    method ProcessOne(task: ProcessingTask, file: FileData, disk: map<string, Blob>, decode: string -> Option<Blob>) returns (stop: bool)
      modifies this`store, task`processedFiles, task`errors
      ensures BatchState(Progress(store, task.processedFiles), task.errors, stop) == FileStep(old(BatchState(Progress(store, task.processedFiles), task.errors, false)), file, disk, decode, FileEffect)
    {
      if file.base64Content.None? {
        if file.filePath !in disk {
          task.errors := task.errors + ["File not found: " + file.filePath];
          return true;
        }
        ProcessFile(task, FileName(file.filePath), disk[file.filePath]);
      } else {
        match decode(file.base64Content.value)
        case None =>
          task.errors := task.errors + ["Invalid base64 content for file " + file.filePath + ": "];
        case Some(blob) =>
          ProcessFile(task, FileName(file.filePath), blob);
      }
      task.processedFiles := task.processedFiles + 1;
      return false;
    }

    /** `ProcessFiles` (lines 32-94), with the background work run to its
        end before returning.  `taskId` stands for the fresh GUID; `now`
        for the clock. */
    method ProcessFiles(taskId: string, files: seq<FileData>, disk: map<string, Blob>, decode: string -> Option<Blob>, now: int)
      returns (id: string)
      requires Valid() && taskId !in tasks
      modifies this
      ensures Valid()
      ensures id == taskId && taskId in tasks && fresh(tasks[taskId])
      ensures forall t :: t in old(tasks) ==> t in tasks && tasks[t] == old(tasks[t])
      ensures tasks.Keys == old(tasks.Keys) + {taskId}
      ensures var b := ProcessRequest(old(store), files, disk, decode);
        var task := tasks[taskId];
        && store == b.progress.files
        && task.id == taskId && task.totalFiles == |files|
        && task.processedFiles == b.progress.processed && task.errors == b.errors
        && task.status == (if b.stopped then InProgress else Completed)
        && task.backups == [] && task.conflicts == []
        && history == old(history) + (if b.stopped then [] else [HistoryItem(taskId, now, BatchSummary(b.progress.processed))])
    {
      var task := new ProcessingTask(taskId, |files|);
      tasks := tasks[taskId := task];
      var stopped := ProcessAll(task, files, disk, decode);
      if !stopped {
        task.status := Completed;
        history := history + [HistoryItem(taskId, now, BatchSummary(task.processedFiles))];
      }
      return taskId;
    }

    /** The loop of lines 41-88 over the request's files; true when it
        returned early. */
    method ProcessAll(task: ProcessingTask, files: seq<FileData>, disk: map<string, Blob>, decode: string -> Option<Blob>)
      returns (stopped: bool)
      modifies this`store, task`processedFiles, task`errors
      ensures BatchState(Progress(store, task.processedFiles), task.errors, stopped) == RunBatch(old(BatchState(Progress(store, task.processedFiles), task.errors, false)), files, disk, decode, FileEffect, |files|)
    {
      ghost var b0 := BatchState(Progress(store, task.processedFiles), task.errors, false);
      for i := 0 to |files|
        invariant BatchState(Progress(store, task.processedFiles), task.errors, false) == RunBatch(b0, files, disk, decode, FileEffect, i)
      {
        var stop := ProcessOne(task, files[i], disk, decode);
        NextBatch(b0, files, disk, decode, FileEffect, i);
        if stop {
          StoppedStays(b0, files, disk, decode, FileEffect, i + 1, |files|);
          return true;
        }
      }
      return false;
    }

    /** `UndoProcessing` (lines 452-467): move every backup back over its
        original, then forget the task.  A missing backup throws, leaving
        the moves already made and the task in place. */
    method UndoProcessing(taskId: string) returns (outcome: Outcome)
      requires Valid()
      modifies this`store, this`tasks
      ensures Valid()
      ensures taskId !in old(tasks) ==> outcome == Returned(false) && store == old(store) && tasks == old(tasks)
      ensures taskId in old(tasks) ==>
        var u := UndoUpTo(old(store), old(tasks[taskId].backups), |old(tasks[taskId].backups)|);
        && store == u.files
        && (u.ok ==> outcome == Returned(true) && tasks == old(tasks) - {taskId})
        && (!u.ok ==> outcome == Threw && tasks == old(tasks))
      ensures outcome == Returned(true) ==> GetStatus(taskId).status == "Not Found"
    {
      if taskId !in tasks {
        return Returned(false);
      }
      var task := tasks[taskId];
      var backups := task.backups;
      for i := 0 to |backups|
        invariant tasks == old(tasks)
        invariant UndoUpTo(old(store), backups, i) == UndoState(store, true)
      {
        var (original, copy) := backups[i];
        match Move(store, copy, original, true)
        case None =>
          StillFailed(old(store), backups, i + 1, |backups|);
          return Threw;
        case Some(fs) =>
          store := fs;
      }
      tasks := tasks - {taskId};
      return Returned(true);
    }

    /** `GetUniqueFilePath` (lines 507-522): try `name_1.ext`, `name_2.ext`,
        ... until one is free. */
    method GetUniqueFilePath(originalPath: Path) returns (newPath: Path)
      ensures newPath == UniquePath(store, originalPath)
      ensures newPath !in store && newPath.dir == originalPath.dir
    {
      var counter := 1;
      newPath := Numbered(originalPath, counter);
      counter := counter + 1;
      while newPath in store
        invariant counter >= 2 && newPath == Numbered(originalPath, counter - 1)
        invariant forall j :: 1 <= j < counter - 1 ==> Numbered(originalPath, j) in store
        invariant UniqueFrom(store, originalPath, counter - 1) == UniqueCounter(store, originalPath)
        decreases |store| + 2 - counter
      {
        TakenBound(store, originalPath, counter);
        newPath := Numbered(originalPath, counter);
        counter := counter + 1;
      }
    }

    /** `ResolveConflict` (lines 474-505).  After resolving, `TryTake`
        removes some conflict of the task, not necessarily the one
        resolved. */
    method ResolveConflict(taskId: string, filePath: Path, resolution: string) returns (outcome: Outcome)
      requires Valid()
      modifies this`store, tasks.Values`conflicts
      ensures Valid() && tasks == old(tasks)
      ensures taskId !in tasks || FirstConflict(old(tasks[taskId].conflicts), filePath).None? ==>
        outcome == Returned(false) && store == old(store) && unchanged(tasks.Values`conflicts)
      ensures taskId in tasks && FirstConflict(old(tasks[taskId].conflicts), filePath).Some? ==>
        var cs := old(tasks[taskId].conflicts);
        var r := ResolveStore(old(store), cs[FirstConflict(cs, filePath).value], resolution);
        && (r.None? ==> outcome == Threw && store == old(store) && tasks[taskId].conflicts == cs)
        && (r.Some? ==>
              && outcome == Returned(true) && store == r.value
              && exists k :: 0 <= k < |cs| && tasks[taskId].conflicts == RemoveAt(cs, k))
      ensures forall t :: t in tasks && t != taskId ==> tasks[t].conflicts == old(tasks[t].conflicts)
    {
      if taskId !in tasks {
        return Returned(false);
      }
      var task := tasks[taskId];
      var found := FirstConflict(task.conflicts, filePath);
      if found.None? {
        return Returned(false);
      }
      var conflict := task.conflicts[found.value];
      var next: Option<FileStore>;
      if resolution == "overwrite" {
        next := Move(store, conflict.tempPath, conflict.filePath, true);
      } else if resolution == "rename" {
        var newPath := GetUniqueFilePath(conflict.filePath);
        next := Move(store, conflict.tempPath, newPath, false);
      } else if resolution == "skip" {
        next := Some(Delete(store, conflict.tempPath));
      } else {
        next := Some(store);
      }
      if next.None? {
        return Threw;
      }
      store := next.value;
      var k :| 0 <= k < |task.conflicts|;
      task.conflicts := RemoveAt(task.conflicts, k);
      return Returned(true);
    }
  }

  /** An undo that failed stays failed. */
  lemma {:induction false} StillFailed(fs: FileStore, backups: seq<(Path, Path)>, k: nat, m: nat)
    requires k <= m <= |backups| && !UndoUpTo(fs, backups, k).ok
    ensures UndoUpTo(fs, backups, m) == UndoUpTo(fs, backups, k)
    decreases m
  {
    if m > k {
      StillFailed(fs, backups, k, m - 1);
    }
  }
}
