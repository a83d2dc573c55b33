/**
 * What importing one file does to the destination folder
 * (WildcardProcessor.cs:96-150 and 316-425), as functions from the store and
 * the task's `ProcessedFiles` counter before to the two after.
 *
 * A parsed document is walked pair by pair.  Every write for a value under
 * top-level key `top` and current key `cur` targets `top/cur.txt`:
 *   - a scalar, or a list holding exactly one scalar, appends one line;
 *   - any other list overwrites the file with its scalars, after the maps
 *     among its items have been walked, and writes nothing when it holds no
 *     scalar;
 *   - a map walks its pairs, each pair's key becoming the current key.
 * Every write adds one to the counter.
 */
module Materializer {
  import opened Text
  import opened YamlParser
  import opened WildcardLine
  import opened Store

  /** The destination folder and the task's `ProcessedFiles` counter. */
  datatype Progress = Progress(files: FileStore, processed: nat)

  /** `Path.Combine(destinationFolder, topLevelKey)` then `$"{categoryKey}.txt"`. */
  function Target(top: string, cur: string): Path {
    Path([top], cur + ".txt")
  }

  /** `WriteToMainCategory(..., string line)` (lines 391-401). */
  function WriteLine(g: Progress, top: string, cur: string, line: string): Progress {
    Progress(Append(g.files, Target(top, cur), line), g.processed + 1)
  }

  /** `WriteToMainCategory(..., List<string> lines)` (lines 403-413). */
  function WriteLines(g: Progress, top: string, cur: string, lines: seq<string>): Progress {
    Progress(Overwrite(g.files, Target(top, cur), lines), g.processed + 1)
  }

  /** A list that `TraverseYaml` appends as one line rather than writing out. */
  predicate IsSingleScalarList(items: seq<Node>) {
    |items| == 1 && items[0].Scalar?
  }

  /** `TraverseYaml` (lines 334-389).  The counter never goes down, and when
      it is unchanged no file changed. */
  function Traverse(g: Progress, top: string, cur: string, v: Node): (r: Progress)
    ensures r.processed >= g.processed
    ensures r.processed == g.processed ==> r.files == g.files
    decreases v, 2
  {
    match v
    case Map(es) => Entries(g, top, v, |es|)
    case Seq(items) =>
      if IsSingleScalarList(items) then WriteLine(g, top, cur, ProcessWildcardLine(items[0].value))
      else
        var (h, lines) := Items(g, top, v, |items|);
        if lines != [] then WriteLines(h, top, cur, lines) else h
    case Scalar(s) => WriteLine(g, top, cur, ProcessWildcardLine(s))
  }

  /** The first `k` pairs of map `m` walked in order (lines 339-347). */
  function Entries(g: Progress, top: string, m: Node, k: nat): (r: Progress)
    requires m.Map? && k <= |m.entries|
    ensures r.processed >= g.processed
    ensures r.processed == g.processed ==> r.files == g.files
    decreases m, 1, k
  {
    if k == 0 then g
    else
      var (key, v) := m.entries[k - 1];
      assert m.entries[k - 1] in m.entries;
      Traverse(Entries(g, top, m, k - 1), top, key, v)
  }

  /** The first `k` items of list `l` (lines 361-375): scalars are collected,
      transformed, in order; maps are walked; lists are skipped. */
  function Items(g: Progress, top: string, l: Node, k: nat): (r: (Progress, seq<string>))
    requires l.Seq? && k <= |l.items|
    ensures r.0.processed >= g.processed
    ensures r.0.processed == g.processed ==> r.0.files == g.files
    decreases l, 1, k
  {
    if k == 0 then (g, [])
    else
      var (h, lines) := Items(g, top, l, k - 1);
      var item := l.items[k - 1];
      assert item in l.items;
      match item
      case Scalar(s) => (h, lines + [ProcessWildcardLine(s)])
      case Map(es) => (Entries(h, top, item, |es|), lines)
      case Seq(_) => (h, lines)
  }

  /** The first `k` top-level pairs of a document, each walked with its key as
      both the top-level and the current key (lines 322-330). */
  function TopLevel(g: Progress, doc: Node, k: nat): (r: Progress)
    requires doc.Map? && k <= |doc.entries|
    ensures r.processed >= g.processed
    ensures r.processed == g.processed ==> r.files == g.files
    decreases k
  {
    if k == 0 then g
    else
      var (key, v) := doc.entries[k - 1];
      Traverse(TopLevel(g, doc, k - 1), key, key, v)
  }

  /** `ProcessYamlFile` (lines 316-332). */
  function YamlEffect(g: Progress, content: string): (r: Progress)
    ensures r.processed >= g.processed
    ensures r.processed == g.processed ==> r.files == g.files
  {
    var doc := ParseDocument(content);
    TopLevel(g, doc, |doc.entries|)
  }

  /** Every line transformed, in order. */
  function TransformAll(lines: seq<string>): (r: seq<string>)
    ensures |r| == |lines| && forall i :: 0 <= i < |lines| ==> r[i] == ProcessWildcardLine(lines[i])
  {
    seq(|lines|, i requires 0 <= i < |lines| => ProcessWildcardLine(lines[i]))
  }

  /** `ProcessTextContent` (lines 415-425): the content split on `'\n'`, every
      piece transformed, written to the named file in the store's root. */
  function TextEffect(g: Progress, content: string, fileName: string): Progress {
    Progress(Overwrite(g.files, Path([], fileName), TransformAll(SplitOn(content, '\n'))), g.processed + 1)
  }

  predicate IsZipName(name: string) { EndsWithIgnoreCase(name, ".zip") }

  predicate IsYamlName(name: string) {
    EndsWithIgnoreCase(name, ".yaml") || EndsWithIgnoreCase(name, ".yml")
  }

  predicate IsTextName(name: string) { EndsWithIgnoreCase(name, ".txt") }

  /** An archive entry: its full name and its text. */
  datatype Entry = Entry(fullName: string, content: string)

  /** One archive entry (lines 129-146): YAML first, then text; anything else
      is passed over. */
  function EntryEffect(g: Progress, entry: Entry): (r: Progress)
    ensures r.processed >= g.processed
    ensures r.processed == g.processed ==> r.files == g.files
    ensures !IsYamlName(entry.fullName) && !IsTextName(entry.fullName) ==> r == g
  {
    if IsYamlName(entry.fullName) then YamlEffect(g, entry.content)
    else if IsTextName(entry.fullName) then TextEffect(g, entry.content, entry.fullName)
    else g
  }

  /** The first `k` entries of an archive, in order (lines 122-150). */
  function ZipEffect(g: Progress, entries: seq<Entry>, k: nat): (r: Progress)
    requires k <= |entries|
    ensures r.processed >= g.processed
    ensures r.processed == g.processed ==> r.files == g.files
  {
    if k == 0 then g else EntryEffect(ZipEffect(g, entries, k - 1), entries[k - 1])
  }

  /** What a file's bytes are, seen as text and seen as an archive (none when
      they are not a valid archive). */
  datatype Blob = Blob(text: string, archive: Option<seq<Entry>>)

  /** `ProcessFile` (lines 96-120): the store and counter after, and the error
      it records when the archive cannot be opened. */
  function FileEffect(g: Progress, fileName: string, blob: Blob): (r: (Progress, seq<string>))
    ensures r.0.processed >= g.processed
    ensures r.0.processed == g.processed ==> r.0.files == g.files
    ensures r.1 != [] ==> IsZipName(fileName) && blob.archive.None? && r.0 == g
    ensures !IsZipName(fileName) && !IsYamlName(fileName) && !IsTextName(fileName) ==> r == (g, [])
  {
    if IsZipName(fileName) then
      match blob.archive
      case None => (g, ["Error processing " + fileName + ": "])
      case Some(entries) => (ZipEffect(g, entries, |entries|), [])
    else if IsYamlName(fileName) then (YamlEffect(g, blob.text), [])
    else if IsTextName(fileName) then (TextEffect(g, blob.text, fileName), [])
    else (g, [])
  }

  // ---------------------------------------------------------------------
  // Properties
  // ---------------------------------------------------------------------

  /** A scalar, or a list holding exactly one scalar, adds one transformed
      line to `top/cur.txt`: earlier lines stay, no other file changes, and
      the counter goes up by one. */
  lemma SingleValueAppends(g: Progress, top: string, cur: string, v: Node, line: string)
    requires (v.Scalar? && line == v.value) || (v.Seq? && IsSingleScalarList(v.items) && line == v.items[0].value)
    ensures var r := Traverse(g, top, cur, v);
      && Lines(r.files, Target(top, cur)) == Lines(g.files, Target(top, cur)) + [ProcessWildcardLine(line)]
      && SameExcept(g.files, r.files, Target(top, cur))
      && r.processed == g.processed + 1
  {
  }

  /** The scalars of a list, transformed, in order. */
  function ScalarLines(items: seq<Node>): (r: seq<string>)
    ensures |r| <= |items|
    ensures ScalarsOnly(items) ==> |r| == |items|
  {
    if items == [] then []
    else
      var last := items[|items| - 1];
      ScalarLines(items[..|items| - 1]) + if last.Scalar? then [ProcessWildcardLine(last.value)] else []
  }

  /** The lines a list collects are its scalars, transformed, in order. */
  lemma {:induction false} ItemsCollectScalars(g: Progress, top: string, l: Node, k: nat)
    requires l.Seq? && k <= |l.items|
    ensures Items(g, top, l, k).1 == ScalarLines(l.items[..k])
    decreases k
  {
    if k > 0 {
      ItemsCollectScalars(g, top, l, k - 1);
      assert l.items[..k][..k - 1] == l.items[..k - 1];
    }
  }

  /** In a list of scalars only the lines are the items themselves,
      transformed. */
  lemma {:induction false} ScalarLinesOfScalars(items: seq<Node>)
    requires ScalarsOnly(items)
    ensures forall i :: 0 <= i < |items| ==> ScalarLines(items)[i] == ProcessWildcardLine(items[i].value)
    decreases |items|
  {
    if items != [] {
      var init := items[..|items| - 1];
      assert forall i :: 0 <= i < |init| ==> init[i] == items[i];
      ScalarLinesOfScalars(init);
    }
  }

  /** A list that is not a single scalar overwrites `top/cur.txt` with exactly
      its scalars, transformed and in order, once its maps have been walked;
      with no scalar it writes nothing for `cur`. */
  lemma ListOverwrites(g: Progress, top: string, cur: string, items: seq<Node>)
    requires !IsSingleScalarList(items)
    ensures var r := Traverse(g, top, cur, Seq(items));
      var h := Items(g, top, Seq(items), |items|).0;
      && (ScalarLines(items) != [] ==>
            && Lines(r.files, Target(top, cur)) == ScalarLines(items)
            && SameExcept(h.files, r.files, Target(top, cur))
            && r.processed == h.processed + 1)
      && (ScalarLines(items) == [] ==> r == h)
  {
    ItemsCollectScalars(g, top, Seq(items), |items|);
    assert items[..|items|] == items;
  }

  /** A list of scalars only, as the parser builds them, writes nothing else. */
  lemma ScalarListWritesOnlyItself(g: Progress, top: string, l: Node, k: nat)
    requires l.Seq? && ScalarsOnly(l.items) && k <= |l.items|
    ensures Items(g, top, l, k).0 == g
    decreases k
  {
    if k > 0 {
      ScalarListWritesOnlyItself(g, top, l, k - 1);
    }
  }

  /** The two stores agree on every file outside folder `dir`. */
  ghost predicate SameOutside(a: FileStore, b: FileStore, dir: seq<string>) {
    forall q: Path :: q.dir != dir ==> (q in a <==> q in b) && (q in a ==> a[q] == b[q])
  }

  /** Walking a value under top-level key `top` changes only files in folder
      `top`. */
  lemma {:induction false} TraverseStaysInFolder(g: Progress, top: string, cur: string, v: Node)
    ensures SameOutside(g.files, Traverse(g, top, cur, v).files, [top])
    decreases v, 2
  {
    match v
    case Map(es) => EntriesStayInFolder(g, top, v, |es|);
    case Seq(items) =>
      if !IsSingleScalarList(items) {
        ItemsStayInFolder(g, top, v, |items|);
      }
    case Scalar(_) =>
  }

  lemma {:induction false} EntriesStayInFolder(g: Progress, top: string, m: Node, k: nat)
    requires m.Map? && k <= |m.entries|
    ensures SameOutside(g.files, Entries(g, top, m, k).files, [top])
    decreases m, 1, k
  {
    if k > 0 {
      var (key, v) := m.entries[k - 1];
      assert m.entries[k - 1] in m.entries;
      EntriesStayInFolder(g, top, m, k - 1);
      TraverseStaysInFolder(Entries(g, top, m, k - 1), top, key, v);
    }
  }

  lemma {:induction false} ItemsStayInFolder(g: Progress, top: string, l: Node, k: nat)
    requires l.Seq? && k <= |l.items|
    ensures SameOutside(g.files, Items(g, top, l, k).0.files, [top])
    decreases l, 1, k
  {
    if k > 0 {
      ItemsStayInFolder(g, top, l, k - 1);
      var item := l.items[k - 1];
      assert item in l.items;
      if item.Map? {
        EntriesStayInFolder(Items(g, top, l, k - 1).0, top, item, |item.entries|);
      }
    }
  }

  /** The current keys whose files walking `v` under current key `cur` may
      write: `cur` itself for a scalar or a list, the keys written by the
      maps among a list's items, and for a map the keys written by each of
      its pairs, walked under the pair's own key (never `cur`). */
  function WrittenKeys(cur: string, v: Node): set<string>
    decreases v, 2
  {
    match v
    case Scalar(_) => {cur}
    case Seq(items) => {cur} + ItemKeys(v, |items|)
    case Map(es) => EntryKeys(v, |es|)
  }

  /** The keys written by the first `k` pairs of map `m`. */
  function EntryKeys(m: Node, k: nat): set<string>
    requires m.Map? && k <= |m.entries|
    decreases m, 1, k
  {
    if k == 0 then {}
    else
      var (key, v) := m.entries[k - 1];
      assert m.entries[k - 1] in m.entries;
      EntryKeys(m, k - 1) + WrittenKeys(key, v)
  }

  /** The keys written by the maps among the first `k` items of list `l`. */
  function ItemKeys(l: Node, k: nat): set<string>
    requires l.Seq? && k <= |l.items|
    decreases l, 1, k
  {
    if k == 0 then {}
    else
      var item := l.items[k - 1];
      assert item in l.items;
      ItemKeys(l, k - 1) + if item.Map? then EntryKeys(item, |item.entries|) else {}
  }

  /** `q` is `top/k.txt` for some `k` in `keys`. */
  predicate IsTargetIn(q: Path, top: string, keys: set<string>) {
    q.dir == [top] && |q.file| >= 4 && q.file[|q.file| - 4..] == ".txt" && q.file[..|q.file| - 4] in keys
  }

  /** The two stores agree on every file that is not `top/k.txt` for a `k`
      in `keys`. */
  ghost predicate SameBeyond(a: FileStore, b: FileStore, top: string, keys: set<string>) {
    forall q: Path :: !IsTargetIn(q, top, keys) ==> (q in a <==> q in b) && (q in a ==> a[q] == b[q])
  }

  lemma TargetIsIn(top: string, k: string, keys: set<string>)
    requires k in keys
    ensures IsTargetIn(Target(top, k), top, keys)
  {
    var f := k + ".txt";
    assert f[|f| - 4..] == ".txt" && f[..|f| - 4] == k;
  }

  /** A write to `top/cur.txt` changes nothing beyond the files of `{cur}`. */
  lemma WriteBeyond(a: FileStore, b: FileStore, top: string, cur: string)
    requires SameExcept(a, b, Target(top, cur))
    ensures SameBeyond(a, b, top, {cur})
  {
    TargetIsIn(top, cur, {cur});
  }

  lemma BeyondGrow(a: FileStore, b: FileStore, top: string, keys: set<string>, more: set<string>)
    requires SameBeyond(a, b, top, keys) && keys <= more
    ensures SameBeyond(a, b, top, more)
  {
  }

  lemma BeyondChain(a: FileStore, b: FileStore, c: FileStore, top: string, k1: set<string>, k2: set<string>)
    requires SameBeyond(a, b, top, k1) && SameBeyond(b, c, top, k2)
    ensures SameBeyond(a, c, top, k1 + k2)
  {
    forall q: Path | !IsTargetIn(q, top, k1 + k2)
      ensures (q in a <==> q in c) && (q in a ==> a[q] == c[q])
    {
      assert !IsTargetIn(q, top, k1) && !IsTargetIn(q, top, k2);
    }
  }

  /** Walking `v` under top-level key `top` and current key `cur` changes no
      file but `top/k.txt` for the keys `k` of `WrittenKeys(cur, v)`: a map's
      pairs are written under their own keys, never under the map's. */
  lemma {:induction false} TraverseWritesOnlyKeys(g: Progress, top: string, cur: string, v: Node)
    ensures SameBeyond(g.files, Traverse(g, top, cur, v).files, top, WrittenKeys(cur, v))
    decreases v, 2
  {
    var r := Traverse(g, top, cur, v);
    match v
    case Map(es) => EntriesWriteOnlyKeys(g, top, v, |es|);
    case Scalar(_) => WriteBeyond(g.files, r.files, top, cur);
    case Seq(items) =>
      if IsSingleScalarList(items) {
        WriteBeyond(g.files, r.files, top, cur);
        BeyondGrow(g.files, r.files, top, {cur}, WrittenKeys(cur, v));
      } else {
        var (h, lines) := Items(g, top, v, |items|);
        ItemsWriteOnlyKeys(g, top, v, |items|);
        if lines != [] {
          WriteBeyond(h.files, r.files, top, cur);
        } else {
          assert SameBeyond(h.files, r.files, top, {cur});
        }
        BeyondChain(g.files, h.files, r.files, top, ItemKeys(v, |items|), {cur});
      }
  }

  lemma {:induction false} EntriesWriteOnlyKeys(g: Progress, top: string, m: Node, k: nat)
    requires m.Map? && k <= |m.entries|
    ensures SameBeyond(g.files, Entries(g, top, m, k).files, top, EntryKeys(m, k))
    decreases m, 1, k
  {
    if k > 0 {
      var (key, v) := m.entries[k - 1];
      assert m.entries[k - 1] in m.entries;
      var h := Entries(g, top, m, k - 1);
      EntriesWriteOnlyKeys(g, top, m, k - 1);
      TraverseWritesOnlyKeys(h, top, key, v);
      BeyondChain(g.files, h.files, Traverse(h, top, key, v).files, top, EntryKeys(m, k - 1), WrittenKeys(key, v));
    }
  }

  lemma {:induction false} ItemsWriteOnlyKeys(g: Progress, top: string, l: Node, k: nat)
    requires l.Seq? && k <= |l.items|
    ensures SameBeyond(g.files, Items(g, top, l, k).0.files, top, ItemKeys(l, k))
    decreases l, 1, k
  {
    if k > 0 {
      var h := Items(g, top, l, k - 1).0;
      ItemsWriteOnlyKeys(g, top, l, k - 1);
      var item := l.items[k - 1];
      assert item in l.items;
      if item.Map? {
        EntriesWriteOnlyKeys(h, top, item, |item.entries|);
        BeyondChain(g.files, h.files, Items(g, top, l, k).0.files, top, ItemKeys(l, k - 1), EntryKeys(item, |item.entries|));
      } else {
        BeyondGrow(g.files, h.files, top, ItemKeys(l, k - 1), ItemKeys(l, k));
      }
    }
  }

  /** A map nested under a key is walked under its pairs' keys: `a:` /
      `  b: x` appends the transformed `x` to `a/b.txt`, and no file is
      named after the key that holds the map. */
  lemma NestedScalarFile(g: Progress, top: string, cur: string, key: string, x: string)
    ensures var r := Traverse(g, top, cur, Map([(key, Scalar(x))]));
      && Lines(r.files, Target(top, key)) == Lines(g.files, Target(top, key)) + [ProcessWildcardLine(x)]
      && SameExcept(g.files, r.files, Target(top, key))
      && r.processed == g.processed + 1
  {
    var m := Map([(key, Scalar(x))]);
    assert Traverse(g, top, cur, m) == Traverse(Entries(g, top, m, 0), top, key, Scalar(x));
    SingleValueAppends(g, top, key, Scalar(x), x);
  }

  /** A file outside the folders of the first `k` top-level keys. */
  ghost predicate OutsideKeys(q: Path, doc: Node, k: nat)
    requires doc.Map? && k <= |doc.entries|
  {
    forall i :: 0 <= i < k ==> q.dir != [doc.entries[i].0]
  }

  /** Walking the first `k` top-level pairs changes only files in the folders
      named by their keys. */
  lemma {:induction false} TopLevelStaysInFolders(g: Progress, doc: Node, k: nat)
    requires doc.Map? && k <= |doc.entries|
    ensures var r := TopLevel(g, doc, k);
      forall q: Path :: OutsideKeys(q, doc, k) ==> (q in g.files <==> q in r.files) && (q in g.files ==> g.files[q] == r.files[q])
  {
    if k > 0 {
      TopLevelStaysInFolders(g, doc, k - 1);
      var (key, v) := doc.entries[k - 1];
      TraverseStaysInFolder(TopLevel(g, doc, k - 1), key, key, v);
    }
  }

  /** A YAML file changes only files in the folders named by the top-level
      keys of its document: a file in any other folder keeps its presence and
      its content. */
  lemma YamlStaysInKeyFolders(g: Progress, content: string, q: Path)
    requires |q.dir| != 1 || q.dir[0] !in KeysOf(ParseDocument(content).entries)
    ensures var r := YamlEffect(g, content);
      (q in g.files <==> q in r.files) && (q in g.files ==> g.files[q] == r.files[q])
  {
    var doc := ParseDocument(content);
    assert OutsideKeys(q, doc, |doc.entries|) by {
      forall i | 0 <= i < |doc.entries|
        ensures q.dir != [doc.entries[i].0]
      {
        assert KeysOf(doc.entries)[i] == doc.entries[i].0;
      }
    }
    TopLevelStaysInFolders(g, doc, |doc.entries|);
  }

  /** A top-level `key: value` scalar lands as one line in `key/key.txt`. */
  lemma TopLevelScalar(g: Progress, key: string, s: string)
    ensures var r := YamlEffectOf(g, Map([(key, Scalar(s))]));
      Lines(r.files, Path([key], key + ".txt")) == Lines(g.files, Path([key], key + ".txt")) + [ProcessWildcardLine(s)]
  {
    var doc := Map([(key, Scalar(s))]);
    assert TopLevel(g, doc, 1) == Traverse(TopLevel(g, doc, 0), key, key, Scalar(s));
    SingleValueAppends(g, key, key, Scalar(s), s);
  }

  /** A document holding one key with a list of two scalars writes
      `key/key.txt` with the two, transformed, in order: no other file
      changes and the counter goes up by one. */
  lemma TwoItemListFile(g: Progress, key: string, a: string, b: string)
    ensures var r := YamlEffectOf(g, Map([(key, Seq([Scalar(a), Scalar(b)]))]));
      && Lines(r.files, Target(key, key)) == [ProcessWildcardLine(a), ProcessWildcardLine(b)]
      && SameExcept(g.files, r.files, Target(key, key))
      && r.processed == g.processed + 1
  {
    var items := [Scalar(a), Scalar(b)];
    var doc := Map([(key, Seq(items))]);
    assert YamlEffectOf(g, doc) == Traverse(g, key, key, Seq(items)) by {
      assert TopLevel(g, doc, 1) == Traverse(TopLevel(g, doc, 0), key, key, Seq(items));
    }
    assert Items(g, key, Seq(items), 1).0 == g;
    assert Items(g, key, Seq(items), 2).0 == g;
    ScalarLinesOfScalars(items);
    ListOverwrites(g, key, key, items);
  }

  /** So the YAML file `key:` / `- a` / `- b` does just that. */
  lemma KeyListFile(g: Progress, text: string, key: string, a: string, b: string)
    requires SplitLines(text) == [key + ":", "- " + a, "- " + b]
    requires PlainKey(key) && PlainItem(a) && PlainItem(b)
    ensures var r := YamlEffect(g, text);
      && Lines(r.files, Target(key, key)) == [ProcessWildcardLine(a), ProcessWildcardLine(b)]
      && SameExcept(g.files, r.files, Target(key, key))
      && r.processed == g.processed + 1
  {
    KeyWithTwoItems(text, key, a, b);
    TwoItemListFile(g, key, a, b);
  }

  /** The same file when the items are indented under the key. */
  lemma IndentedKeyListFile(g: Progress, text: string, key: string, a: string, b: string)
    requires SplitLines(text) == [key + ":", "  - " + a, "  - " + b]
    requires PlainKey(key) && PlainItem(a) && PlainItem(b)
    ensures var r := YamlEffect(g, text);
      && Lines(r.files, Target(key, key)) == [ProcessWildcardLine(a), ProcessWildcardLine(b)]
      && SameExcept(g.files, r.files, Target(key, key))
      && r.processed == g.processed + 1
  {
    KeyWithTwoIndentedItems(text, key, a, b);
    TwoItemListFile(g, key, a, b);
  }

  /** `YamlEffect` on a document already parsed. */
  function YamlEffectOf(g: Progress, doc: Node): Progress
    requires doc.Map?
  {
    TopLevel(g, doc, |doc.entries|)
  }

  /** A text file becomes one transformed line per `'\n'`-separated piece, in
      order, in the file of that name; the counter goes up by one and no
      other file changes.  Joining the pieces gives the content back. */
  lemma TextFileLines(g: Progress, content: string, fileName: string)
    ensures var r := TextEffect(g, content, fileName);
      var pieces := SplitOn(content, '\n');
      var out := Lines(r.files, Path([], fileName));
      && |out| == |pieces|
      && (forall i :: 0 <= i < |out| ==> out[i] == ProcessWildcardLine(pieces[i]))
      && Join(pieces, '\n') == content
      && SameExcept(g.files, r.files, Path([], fileName))
      && r.processed == g.processed + 1
  {
    SplitJoin(content, '\n');
  }
}
