# SwarmUI Wildcard Importer: a Dafny model

The Wildcard Importer is a SwarmUI extension. It turns wildcard
collections (plain `.txt` lists, YAML files with nested categories, and ZIP
archives of both) into SwarmUI's own wildcard files under the wildcards
folder. While it copies, it rewrites each line's `__name__` markers to
`<wildcard:name>` and its `{a, b}` choices to `<random:a,b>`. Each import
is a *task* with a status, a progress counter, a list of errors, and
backup and conflict records (which no code path in the repository fills). Tasks can be undone, conflicts resolved by
overwriting, renaming or skipping, and a history of finished imports is kept
newest first.

The model covers the two core files.

- `YamlParser.cs`, the parser for a restricted, indentation-scoped YAML:
  - the parse result (`YamlParser.Node`: scalars, lists and
    insertion-ordered maps);
  - the parser's stack of open containers, as a stack of frames;
  - the per-line semantics as functions (`Step`, `Run`, `ParseDocument`);
  - `Parse` as a method with the source's loop, proved equal to
    `ParseDocument`.
- `WildcardProcessor.cs`:
  - the two regex passes of `ProcessWildcardLine`, as left-to-right
    scanners (module `WildcardLine`);
  - the destination folder, as a map from paths to file lines (module
    `Store`);
  - what a YAML, text or archive file does to that folder and to the task's
    counter, as functions (module `Materializer`);
  - the batch loop of `ProcessFiles`, undo, conflict resolution, the free
    file name search and the history order, as functions (module
    `Requests`);
  - the stateful classes `ProcessingTask` and `WildcardProcessor` (module
    `Processor`), whose methods mirror the source's loops and recursion.
    Each method is proved to leave exactly the state those functions give.

Effects the processor cannot see are parameters:
- the server's files for path-based requests: `disk`;
- base64 decoding: `decode`;
- the clock: `now`;
- the new task's GUID: `taskId`.

Module `Text` holds the .NET string operations the source relies on:
- `Trim`/`TrimStart`/`TrimEnd` with .NET's whitespace set;
- `Split` with and without removing empty pieces;
- case-insensitive `EndsWith`, folding ASCII letters only;
- formatting of counters.

## Model

| member | source | states |
|---|---|---|
| YamlParser.Parse | YamlParser.cs:10-157 | The line loop yields exactly the document the per-line semantics define. That document is always a well-formed map: every list holds only scalars, and keys are unique in every map. |
| YamlParser.ParseDocument | YamlParser.cs:12-19 | Parsing any text gives a well-formed map: the root is never popped, so the result is a dictionary. |
| YamlParser.LastKey | YamlParser.cs:171-183 | There is no last key exactly when the map is empty. Otherwise it is the most recently inserted key. |
| YamlParser.FindKey | YamlParser.cs:59 | The index found holds the key and no earlier entry does. None means the key is absent. |
| YamlParser.Put | YamlParser.cs:67 | Assigning `map[key]` keeps the key order when the key exists and appends the key when it does not. Afterwards the key maps to the new value and every other key keeps its value. Unique keys stay unique. |
| YamlParser.PutWellFormed | YamlParser.cs:107 | Storing a well-formed value in a well-formed map gives a well-formed map. |
| YamlParser.FindKeyAppend | YamlParser.cs:114 | Looking up a key after an append finds the earlier entry when there is one, else the appended one. |
| YamlParser.FindKeyByKeys | YamlParser.cs:67 | Maps with the same key sequence give the same lookup result, whatever their values. |
| YamlParser.PopTo | YamlParser.cs:29-33 | Popping for a line at column `indent` leaves the root in place and a valid stack, and the frames below the new top stay as they were. |
| YamlParser.PopToStops | YamlParser.cs:29-33 | The loop stops at the first frame, from the top, whose column is left of the line's: every frame it removed was at or right of the line's column, and the frame it stops at keeps its column. |
| YamlParser.PopToKeepsTree | YamlParser.cs:29-33 | Closing scopes never changes the document: containers are shared with their parents, so popping only moves the cursor. |
| YamlParser.Collapse | YamlParser.cs:156 | The document read off any stack is a well-formed map. |
| YamlParser.ApplyItem | YamlParser.cs:37-74 | A `- item` line has these effects. Under a list, the item is appended. Under an empty map, nothing happens. Under a non-empty map, the last key's list gets the item, or the key's other value becomes the one-item list; every other key is untouched and the key order is kept. |
| YamlParser.WithItem | YamlParser.cs:59-68 | The last value grows by the item if it is a list. Any other value is replaced by the one-item list. |
| YamlParser.ItemLine | YamlParser.cs:37-40 | A significant line starting with `-` closes the deeper scopes and then applies the item text (after the dash, trimmed) to the container now on top. |
| YamlParser.EmptyValueOpensContainer | YamlParser.cs:84-116 | Under a map, `key:` with nothing after the first colon stores a new empty list if the next significant line is an item, else a new empty map. It pushes that container at the line's column. |
| YamlParser.ValueLineStores | YamlParser.cs:78-80 | Under a map, `key: value` stores the trimmed value (or its inline list) under the key trimmed before the first colon. The stack keeps its height. |
| YamlParser.KeyLine | YamlParser.cs:75-80 | A line without a leading dash whose first colon is at `c` is a key line split at `c`. |
| YamlParser.ValueNode | YamlParser.cs:121-138 | A value in brackets becomes the list of its trimmed comma-separated pieces. Any other value becomes a scalar. Neither is a map. |
| YamlParser.InlineItems | YamlParser.cs:125-130 | An inline list has one trimmed item per comma-separated piece, at least one. |
| YamlParser.EmptyInlineList | YamlParser.cs:121-132 | `key: []`, and any inline list made only of brackets, stores the one-item list `[""]`, not an empty list. |
| YamlParser.IgnoredLineKeepsTree | YamlParser.cs:141-150 | A key line under a list, or a line with neither dash nor colon, only closes scopes and leaves the document unchanged. |
| YamlParser.SkippedLineChangesNothing | YamlParser.cs:24-25 | Inserting a blank or comment line anywhere before or after the current line changes nothing, including the look-ahead of an earlier `key:` line. |
| YamlParser.NextIsItemIgnoresSkipped | YamlParser.cs:88-101 | The look-ahead after `key:` passes over blank and comment lines. |
| YamlParser.SkipTestsAgree | YamlParser.cs:24 | The main loop's skip test (on the right-trimmed line) agrees with the look-ahead's (on the left-trimmed line). |
| YamlParser.StepSeesOnlyLookAhead | YamlParser.cs:86-101 | A line's effect depends on the lines after it only through whether the next significant one is an item. |
| YamlParser.LookAhead | YamlParser.cs:87-101 | The inner loop decides "next line is a list item" exactly as the look-ahead function does. |
| YamlParser.PopToParent | YamlParser.cs:30-33 | The popping loop leaves the stack that `PopTo` defines. |
| YamlParser.ParseLine | YamlParser.cs:21-150 | One pass of the main loop performs exactly the step the per-line semantics define. |
| YamlParser.KeyWithTwoItems | YamlParser.cs:21-116 | The document `key:` / `- a` / `- b` (plain key and items at column 0) parses to the map holding only `key`, whose value is the list of `a` then `b`. Each item pops the list's frame and reaches the list as the value of the root's last key. |
| YamlParser.IndentedItemApplies | YamlParser.cs:29-43 | An item line at column 2, on a stack whose top frame is left of column 2, pops nothing and applies the item to the top container. |
| YamlParser.KeyWithTwoIndentedItems | YamlParser.cs:21-116 | The document `key:` / `  - a` / `  - b`, items indented under the key, parses to the same map. Here each item is added to the list's own open frame, and reading the document off the stack writes that list back under `key`. |
| WildcardLine.WordRun | WildcardProcessor.cs:430 | The longest prefix of word characters: all of it matches `\w` and the character after it does not. |
| WildcardLine.LastClose | WildcardProcessor.cs:430 | The backtracking choice of the closing `__`: the last one in the word run. |
| WildcardLine.WildcardToken | WildcardProcessor.cs:430 | `__name__` followed by a non-word character becomes `<wildcard:name>`, and the scan goes on after it. |
| WildcardLine.WildcardPassPrefix | WildcardProcessor.cs:430 | Text without underscores passes through the first pass unchanged, and the pass continues behind it. |
| WildcardLine.WildcardPassNoMarker | WildcardProcessor.cs:430 | A line with no `__` is unchanged by the first pass. |
| WildcardLine.NoUnderscoreNoMarker | WildcardProcessor.cs:430 | Without an underscore there is no `__` marker. |
| WildcardLine.WildcardPassNoUnderscore | WildcardProcessor.cs:430 | A line without underscores is unchanged by the first pass. |
| WildcardLine.WildcardAfterPrefix | WildcardProcessor.cs:430 | A marker after underscore-free text is rewritten in place. |
| WildcardLine.RandomToken | WildcardProcessor.cs:433 | `{x}` with non-empty `x` free of `}` becomes `<random:x>` with the spaces of `x` removed, and the scan goes on after the brace. |
| WildcardLine.RandomPassPrefix | WildcardProcessor.cs:433 | Text without `{` passes through the second pass unchanged. |
| WildcardLine.RandomPassNoBrace | WildcardProcessor.cs:433 | A line with no `{` is unchanged by the second pass. |
| WildcardLine.RandomAfterPrefix | WildcardProcessor.cs:433 | A choice after brace-free text is rewritten in place. |
| WildcardLine.EmptyBracesStay | WildcardProcessor.cs:433 | `{}` is not a choice (the regex needs one character) and stays as it is. |
| WildcardLine.PlainLineUnchanged | WildcardProcessor.cs:427-436 | A line in which no position starts a `__NAME__` match or a `{X}` match comes out unchanged, whatever marker characters it holds. |
| WildcardLine.WildcardStartIff | WildcardProcessor.cs:430 | A `__` starts no match exactly when no closing `__` begins inside the word run after it, one character or more past the opening. |
| WildcardLine.WildcardPassFixedIff | WildcardProcessor.cs:430 | The first pass leaves a line unchanged if and only if no position of it starts a `__NAME__` match. |
| WildcardLine.RandomPassFixedIff | WildcardProcessor.cs:433 | The second pass leaves a line unchanged if and only if no position of it starts a `{X}` match. |
| WildcardLine.RandomPassNoClose | WildcardProcessor.cs:433 | A line without `}` starts no `{X}` match, so an unclosed `x {y` is unchanged by the second pass. |
| WildcardLine.LoneDoubleUnderscore | WildcardProcessor.cs:427-436 | A lone `__`, with no other `_` and no `}` on the line (such as `a __ b`), comes out unchanged. |
| WildcardLine.WildcardThenRandom | WildcardProcessor.cs:427-436 | A `__NAME__` and a later `{X}` on one line are both rewritten, the second pass running over the first pass's output. |
| WildcardLine.OneWildcard | WildcardProcessor.cs:427-436 | A line with one wildcard marker comes out with just that marker replaced. |
| WildcardLine.OneRandom | WildcardProcessor.cs:427-436 | A line with one choice comes out with just that choice replaced. |
| WildcardLine.SpaceInsideBracesGoes | WildcardProcessor.cs:433 | `pre{a b}` becomes `pre<random:ab>`: the space inside the braces is dropped. For example, `pick {red, blue}` becomes `pick <random:red,blue>`. |
| WildcardLine.WildcardExample | WildcardProcessor.cs:430 | `a __foo__ b` becomes `a <wildcard:foo> b`. |
| WildcardLine.RandomExample | WildcardProcessor.cs:433 | `pick {a b}` becomes `pick <random:ab>`. |
| WildcardLine.UnderscoresInsideName | WildcardProcessor.cs:430 | `__a__b__` is one marker named `a__b`, whatever the words `a` and `b`: the greedy name backtracks only to the last `__`. |
| Store.Append | WildcardProcessor.cs:399 | Appending a line keeps all earlier lines, creates a missing file, and touches no other file. |
| Store.Overwrite | WildcardProcessor.cs:411 | Writing all lines makes the file hold exactly them and touches no other file. |
| Store.Delete | WildcardProcessor.cs:495 | The file is gone afterwards. Nothing else changes. |
| Store.Move | WildcardProcessor.cs:459 | A move fails exactly when the source is missing, or when the target exists and may not be overwritten. Otherwise the target gets the source's lines, the source is gone, and nothing else changes. |
| Store.AppendKeepsEarlierLines | WildcardProcessor.cs:399 | An append grows the file by one line and keeps its old lines as a prefix. |
| Store.LastIndexOf | WildcardProcessor.cs:50 | The last index holding the character, or none when it does not occur. |
| Store.FileName | WildcardProcessor.cs:50 | The name after the last `/`: it contains no `/`, is a suffix of the path, is preceded by a `/` when the path has one, and is the whole path when there is none. |
| Store.Extension | WildcardProcessor.cs:511 | Empty, or a `.` followed by at least one character and no other `.`, ending the name. It is not empty when the name has a `.` and does not end with one, so it starts at the last `.`. |
| Store.Stem | WildcardProcessor.cs:510 | A prefix of the name: the whole name when it has no `.`, otherwise the part before its last `.`. |
| Store.StemAndExtension | WildcardProcessor.cs:510-511 | Stem and extension give back the name, except for a trailing `.`, which belongs to neither. |
| Store.Numbered | WildcardProcessor.cs:517 | The `name_k.ext` candidate lies in the same folder. |
| Store.NumberedInjective | WildcardProcessor.cs:517 | Different counters give different candidates. |
| Materializer.Traverse | WildcardProcessor.cs:334-389 | Traversal never moves the counter back. When it writes nothing, the files are unchanged. |
| Materializer.Entries | WildcardProcessor.cs:339-347 | The same, for each entry of a map in order. |
| Materializer.Items | WildcardProcessor.cs:362-375 | The same, for the items of a multi-item list. |
| Materializer.FileEffect | WildcardProcessor.cs:96-120 | The counter never goes back. The only error is an archive that cannot be opened, which writes nothing. A name that is not `.zip`, `.yaml`, `.yml` or `.txt` (ignoring case) has no effect at all. |
| Materializer.YamlEffect | WildcardProcessor.cs:316-332 | Importing a YAML file never moves the counter back, and when the counter stays the same no file changes. |
| Materializer.TopLevel | WildcardProcessor.cs:322-330 | Walking the top-level keys never moves the counter back, and when the counter stays the same no file changes. |
| Materializer.ZipEffect | WildcardProcessor.cs:122-150 | Importing an archive's entries never moves the counter back. |
| Materializer.EntryEffect | WildcardProcessor.cs:129-146 | An entry whose name ends neither in `.yaml`/`.yml` nor in `.txt` (ignoring ASCII case) leaves the files and the counter exactly as they were. Any entry never moves the counter back. |
| Materializer.SingleValueAppends | WildcardProcessor.cs:352-357 | A scalar, or a list of exactly one scalar, appends its rewritten line to `top/key.txt`. Old lines stay, no other file changes, and the counter grows by one. |
| Materializer.ListOverwrites | WildcardProcessor.cs:358-381 | A longer list handles its nested maps first. If it has scalars, `top/key.txt` is then overwritten with exactly their rewritten lines and the counter grows by one. A list with no scalars writes no file of its own. |
| Materializer.ItemsCollectScalars | WildcardProcessor.cs:362-367 | The lines written for a list are the rewritten scalar items, in order. Nested lists are dropped. |
| Materializer.ScalarLines | WildcardProcessor.cs:362-367 | At most one line per item, and exactly one per item when all items are scalars. |
| Materializer.ScalarLinesOfScalars | WildcardProcessor.cs:364-366 | For an all-scalar list, line `i` is item `i` rewritten. |
| Materializer.ScalarListWritesOnlyItself | WildcardProcessor.cs:362-375 | Collecting an all-scalar list writes no file until the list's own file is written. |
| Materializer.TraverseStaysInFolder | WildcardProcessor.cs:334-389 | A top-level key's traversal writes only inside that key's folder, whatever the nesting. |
| Materializer.EntriesStayInFolder | WildcardProcessor.cs:339-347 | The same, for a map's entries. |
| Materializer.ItemsStayInFolder | WildcardProcessor.cs:362-375 | The same, for a list's items. |
| Materializer.TraverseWritesOnlyKeys | WildcardProcessor.cs:334-408 | Walking a value changes no file but `top/k.txt` for the keys `k` in `WrittenKeys`: the current key for a scalar or a list, and for a map the keys written by each pair walked under the pair's own key, never the map's. |
| Materializer.EntriesWriteOnlyKeys | WildcardProcessor.cs:339-347 | The same, for a map's first `k` pairs, each under its own key. |
| Materializer.ItemsWriteOnlyKeys | WildcardProcessor.cs:362-375 | The same, for the maps among a list's first `k` items. |
| Materializer.NestedScalarFile | WildcardProcessor.cs:334-400 | A map `{key: x}` nested under any current key appends the rewritten `x` to `top/key.txt`, changes no other file and counts one value. |
| Materializer.TopLevelStaysInFolders | WildcardProcessor.cs:322-330 | Walking the first `k` top-level pairs, each with its own key as the folder, changes no file outside the folders named by those `k` keys. |
| Materializer.YamlStaysInKeyFolders | WildcardProcessor.cs:316-332 | Importing a YAML file leaves every file outside the folders named by its document's top-level keys present or absent as before, with the same content. |
| Materializer.TopLevelScalar | WildcardProcessor.cs:322-330 | `key: value` at the top level writes `key/key.txt` with the rewritten value. |
| Materializer.TwoItemListFile | WildcardProcessor.cs:322-381 | A document whose one key holds a list of two scalars overwrites `key/key.txt` with the two rewritten lines, in order. No other file changes and the counter grows by one. |
| Materializer.KeyListFile | WildcardProcessor.cs:316-381 | The YAML text `key:` / `- a` / `- b` therefore writes `key/key.txt` with exactly the two rewritten items, in order, and changes nothing else. |
| Materializer.IndentedKeyListFile | WildcardProcessor.cs:316-381 | The same file, with the same lines, for `key:` / `  - a` / `  - b`. |
| Materializer.TextFileLines | WildcardProcessor.cs:415-425 | A text file becomes one output file in the destination root. Its lines are the rewritten pieces of the content split at `\n`, and joining the pieces gives back the content. The counter grows by one. |
| Requests.FileStep | WildcardProcessor.cs:40-88 | After the early return nothing changes, and the loop returns exactly when a server path is missing. Errors are only ever added. A file that is handled adds at least one to the counter. |
| Requests.LiveStep | WildcardProcessor.cs:42-87 | The loop ends exactly when a server path is missing. Then `File not found: <path>` is added to the errors, and the store and the counter are unchanged. Invalid base64 adds `Invalid base64 content for file <path>: ` and counts the file, with the store unchanged. Errors are only ever added, and a handled file adds at least one to the counter. |
| Requests.StoppedStays | WildcardProcessor.cs:47 | Once the loop has returned, later files change nothing. |
| Requests.StopsIffMissing | WildcardProcessor.cs:40-48 | The loop ends early exactly when one of the files so far is a missing server path. |
| Requests.BatchCounts | WildcardProcessor.cs:40-88 | Earlier errors are kept. A loop that runs to the end counts at least one per file. |
| Requests.FileEffectMonotone | WildcardProcessor.cs:96-120 | `ProcessFile` never moves the counter back. |
| Requests.OneTextFileCountsTwice | WildcardProcessor.cs:415-423 | A request with one existing text file ends with the counter at 2, one more than the file count: the text write and the loop both count. |
| Requests.UndoRestores | WildcardProcessor.cs:457-460 | When the backups exist and are disjoint, undo succeeds. Each original gets its backup's content back and the backup is gone. Backups not yet reached are untouched. |
| Requests.UniqueFrom | WildcardProcessor.cs:515-519 | The search ends at the first counter whose candidate is free. All candidates before it are taken. |
| Requests.UniqueCounter | WildcardProcessor.cs:512-519 | The counter chosen is the least `k >= 1` whose `name_k.ext` is free. |
| Requests.UniquePath | WildcardProcessor.cs:507-522 | The unique path is free and lies in the original's folder. |
| Requests.TakenBound | WildcardProcessor.cs:519 | Only as many candidates can be taken as the store has files, so the search ends. |
| Requests.NumberedBelowSize | WildcardProcessor.cs:517 | There are exactly `k - 1` distinct candidates below `k`. |
| Requests.NumberedDiffers | WildcardProcessor.cs:517 | A candidate is never the original path. |
| Requests.FirstConflict | WildcardProcessor.cs:479 | The first conflict recorded for the path, or none when there is none. |
| Requests.Resolutions | WildcardProcessor.cs:482-497 | "overwrite" moves the new file onto the path. "rename" moves it to the free `name_k.ext` and leaves the existing file alone. "skip" deletes the new file and leaves the existing one alone. |
| Requests.RemoveAt | WildcardProcessor.cs:498 | Taking a conflict out leaves one fewer, and exactly that one is missing. |
| Requests.InsertByTime | WildcardProcessor.cs:471 | Inserting a history item keeps every item. |
| Requests.InsertKeepsOrder | WildcardProcessor.cs:471 | Inserting into a newest-first history keeps it newest first. |
| Requests.SortNewestFirst | WildcardProcessor.cs:471 | The history comes out newest first and as a permutation of the stored items. |
| Processor.StatusName | WildcardProcessor.cs:543-548 | No status name reads "Not Found". |
| Processor.StatusNamesDiffer | WildcardProcessor.cs:543-548 | Different statuses have different names. |
| Processor.ProcessingTask.constructor | WildcardProcessor.cs:525-534 | A new task has nothing processed, no errors, backups or conflicts, and the default status `InProgress`. |
| Processor.WildcardProcessor.constructor | WildcardProcessor.cs:19-30 | No tasks and no history. |
| Processor.WildcardProcessor.GetStatus | WildcardProcessor.cs:438-450 | "Not Found" is reported exactly for unknown tasks. A known task reports its status name, its progress as processed over total, and its conflicts. |
| Processor.WildcardProcessor.GetHistory | WildcardProcessor.cs:469-472 | The history newest first, holding exactly the recorded items. |
| Processor.WildcardProcessor.WriteLineToMainCategory | WildcardProcessor.cs:391-401 | The store and the task's counter become what appending the line gives. |
| Processor.WildcardProcessor.WriteLinesToMainCategory | WildcardProcessor.cs:403-413 | The store and the task's counter become what overwriting with the lines gives. |
| Processor.WildcardProcessor.TraverseYaml | WildcardProcessor.cs:334-389 | The recursive traversal leaves exactly the store and counter the traversal function defines. |
| Processor.WildcardProcessor.TraverseMap | WildcardProcessor.cs:339-347 | The loop over a map's entries does the same. |
| Processor.WildcardProcessor.TraverseList | WildcardProcessor.cs:361-375 | The loop over a list's items does the same, and returns the lines collected. |
| Processor.WildcardProcessor.ProcessYamlFile | WildcardProcessor.cs:316-332 | Parsing and then traversing each top-level key leaves exactly the YAML effect. |
| Processor.WildcardProcessor.ProcessTextContent | WildcardProcessor.cs:415-425 | Leaves exactly the text-file effect. |
| Processor.WildcardProcessor.ProcessZipFile | WildcardProcessor.cs:122-150 | The loop over the entries leaves exactly the archive effect. |
| Processor.WildcardProcessor.ProcessFile | WildcardProcessor.cs:96-120 | The store, counter and errors become what `ProcessFile`'s dispatch gives. |
| Processor.WildcardProcessor.ProcessOne | WildcardProcessor.cs:42-87 | One pass of the loop body leaves exactly the state of one batch step, and reports whether it returned. |
| Processor.WildcardProcessor.ProcessAll | WildcardProcessor.cs:40-88 | The loop leaves exactly the state of the whole batch, and reports whether it returned early. |
| Processor.WildcardProcessor.ProcessFiles | WildcardProcessor.cs:32-94 | A fresh task is registered under the new id and the other tasks are kept, every task still filed under its own id. The store, counter and errors are those of the batch, and the total is the request size. The status becomes `Completed` with a "Processed N files" history entry unless the loop returned early; then it stays `InProgress` and nothing is logged. |
| Processor.WildcardProcessor.UndoProcessing | WildcardProcessor.cs:452-467 | An unknown task gives false and changes nothing. A known task has its backups moved back in order. If all moves succeed, it is removed, true is returned, and a later status query says "Not Found". A failing move throws and leaves the task registered. |
| Processor.WildcardProcessor.GetUniqueFilePath | WildcardProcessor.cs:507-522 | The do-while loop returns the least free `name_k.ext`, which is free and in the same folder. |
| Processor.WildcardProcessor.ResolveConflict | WildcardProcessor.cs:474-505 | No task, or no conflict for the path, gives false and changes nothing. Otherwise the chosen resolution is applied to the store. A failed move throws. On success, true is returned and exactly one conflict is taken out of the task. |
| Processor.StillFailed | WildcardProcessor.cs:457-460 | Once a move back fails, the undo ends there: the exception leaves the later backups unmoved. |

## Left out

- Concurrency: `ProcessFiles` starts the batch with `Task.Run` and returns the id at once. In the model the whole batch completes inside the call, and the concurrent dictionary and bags are plain fields accessed one at a time.
- The real file system: files are a map from (folder, name) to lines. `Directory.CreateDirectory` has no counterpart because folders exist implicitly. Reading a file as text and opening it as an archive are the two views of a `Blob`, supplied by the caller.
- I/O failures while writing, reading or decoding, apart from a file that cannot be opened as an archive, an invalid base64 text and a failing move, are not modelled. Hence the catch clauses `Error processing {FilePath}: ...` in `ProcessFiles` are not reached in the model.
- Exception messages: error strings keep the text the source writes before `ex.Message`, including the `: `, and drop the message. `ProcessFile`'s is modelled as `Error processing ` + file name + `: `, and the invalid base64 one as `Invalid base64 content for file ` + path + `: `.
- Temporary files for base64 uploads (`Path.GetTempFileName`, the write of the bytes, the delete in `finally`): the decoded content goes straight to `ProcessFile`.
- `GetStatus` progress is a float division. The model reports the counter and the total as a pair, so an empty request has no NaN progress.
- `GetStatus` for an unknown task returns a status with no list of conflicts (null in the source). The model returns an empty list.
- `Processor.WildcardProcessor.ResolveConflict`: `TryTake` takes an unspecified conflict out of the bag, not necessarily the one resolved. The contract says only that exactly one is taken out.
- Nothing in the repository ever adds backups or conflicts to a task. The model keeps them as task fields that undo and conflict resolution read.
- The backups dictionary's enumeration order is modelled as a sequence. The conflicts bag is one too: `Requests.FirstConflict` and `Processor.WildcardProcessor.ResolveConflict` take the first matching conflict in recorded order, where `FirstOrDefault` over the `ConcurrentBag` (WildcardProcessor.cs:479) may return any matching one.
- `Logs`, `SerializeObject` and the JSON log of the parsed tree are left out because they do not affect behaviour. The commented-out earlier versions of `ProcessYamlFile` and `CreateCategoryFiles` are left out because they are not compiled.
- The web API (`WebAPI/WildcardImporterAPI.cs`), the extension entry point and the browser script are not part of this model.
- `\w` in the wildcard pattern is modelled as ASCII letters, digits and `_`, not the full Unicode word class. The culture-sensitive `StartsWith("#")`/`StartsWith("-")` and the `StartsWith("[")`/`EndsWith("]")` test for an inline list (YamlParser.cs:121) are modelled as ordinal comparisons.
- The `OrdinalIgnoreCase` suffix tests that pick `.zip`, `.yaml`, `.yml` and `.txt` (WildcardProcessor.cs:101-110, 129, 138) fold the case of ASCII letters only in the model; .NET also folds non-ASCII letters, which cannot occur in those suffixes but can in the characters compared against them.
- Paths:
  - they are relative to the destination folder;
  - an archive entry's full name and a text file's name are used as a single file name in the destination root. For a text file this is exact, because `Path.GetFileName` leaves no separator in it. An archive entry's full name can name a folder (`pack/colors.txt`) or climb out with `..`, and `Path.Combine` (WildcardProcessor.cs:421) keeps both;
  - nothing creates an entry's folder: the only `CreateDirectory` calls are for YAML keys (WildcardProcessor.cs:394, 406). When `dest/pack` does not exist, `WriteAllLinesAsync` (line 422) throws. The catch in `ProcessFile` (lines 116-119) then records `Error processing <archive>: ...`, and the archive's remaining entries are never read. An entry `../x.txt` is written next to the destination folder instead. The model writes such an entry to the single name `pack/colors.txt` in the destination root, records no error and goes on with the next entry;
  - `Path.GetFileName` is modelled for `/` only;
  - a YAML key is used as one folder or file name. `Path.Combine` (WildcardProcessor.cs:393-396) also honours a `/` or `..` inside a key and a key that is an absolute path, so a nested key `../x` under `t` writes to the destination's `x.txt` and a top-level key `/tmp/k` writes outside the destination. The folder properties (`Materializer.TraverseStaysInFolder`, `Materializer.YamlStaysInKeyFolders`) hold for the structured paths of the model, not for such keys.
- The server's files read by path-based requests (`disk`) are fixed for the whole batch and kept apart from the destination store. A request path naming a file that an earlier file of the same batch wrote is read as it was before the batch, or found missing.
- Integer width: counters are unbounded naturals. The source's `int` overflow needs more than two billion writes.
- Three expectations one might have of the task record do not hold in the code, and the model follows the code:
  - the counter counts written category files as well as request files, so it can exceed the total (`Requests.OneTextFileCountsTwice`);
  - there is no separate "created" state: a new task starts as `InProgress`, the enum's default;
  - a task whose loop returned early stays `InProgress` and gets no history entry.
- Materializer.FileEffect: "the only error is an archive that cannot be opened" holds for archives whose `.txt` entries name no folder. An entry in a folder that does not exist makes the source record an error and abandon the archive (see Paths).
- Materializer.ZipEffect: folds every entry, as the source does when no entry's write fails. It does not model the early end of the entry loop on such a failure.
- Materializer.TextFileLines: its one output file in the destination root is exact for an uploaded text file. For an archive entry with a folder part the source writes into that folder or fails (see Paths).
- Processor.WildcardProcessor.ProcessZipFile: equals ZipEffect, so it shares ZipEffect's gap for entries in folders.
- YamlEffect: its own contract states only that the counter never goes back; that it writes only inside the folders of the top-level keys is the separate lemma `Materializer.YamlStaysInKeyFolders`.
- TopLevel: likewise, the folder property is `Materializer.TopLevelStaysInFolders`.
- Requests.BatchCounts: gives a lower bound on the counter rather than its exact value, because the exact value depends on how many category files each file writes. That value is stated by `Materializer.SingleValueAppends`, `Materializer.ListOverwrites` and `Materializer.TextFileLines`.
