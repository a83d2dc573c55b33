/**
 * The destination folder seen as a store of text files, each a sequence of
 * lines, together with the path arithmetic the importer does with
 * `Path.Combine`, `Path.GetFileName`, `Path.GetFileNameWithoutExtension` and
 * `Path.GetExtension`.
 */
module Store {
  import opened Text

  /** A file path: the folders below the store's root, and the file name. */
  datatype Path = Path(dir: seq<string>, file: string)

  type FileStore = map<Path, seq<string>>

  /** The lines of a file; a missing file reads as no lines. */
  function Lines(fs: FileStore, p: Path): seq<string> {
    if p in fs then fs[p] else []
  }

  /** The two stores agree at every path but `p`. */
  ghost predicate SameExcept(a: FileStore, b: FileStore, p: Path) {
    forall q :: q != p ==> (q in a <==> q in b) && (q in a ==> a[q] == b[q])
  }

  /** `File.AppendAllLines(p, [line])`: the file gets one more line; earlier
      lines stay; a missing file is created. */
  function Append(fs: FileStore, p: Path, line: string): (r: FileStore)
    ensures p in r && r[p] == Lines(fs, p) + [line]
    ensures SameExcept(fs, r, p)
  {
    fs[p := Lines(fs, p) + [line]]
  }

  /** `File.WriteAllLines(p, lines)`: the file holds exactly `lines`. */
  function Overwrite(fs: FileStore, p: Path, lines: seq<string>): (r: FileStore)
    ensures p in r && r[p] == lines
    ensures SameExcept(fs, r, p)
  {
    fs[p := lines]
  }

  /** `File.Delete(p)`; deleting a missing file is not an error. */
  function Delete(fs: FileStore, p: Path): (r: FileStore)
    ensures p !in r && SameExcept(fs, r, p)
  {
    fs - {p}
  }

  /** `File.Move(from, to, overwrite)`: none when the source is missing, or
      when the target exists and may not be overwritten. */
  function Move(fs: FileStore, from: Path, to: Path, overwrite: bool): (r: Option<FileStore>)
    ensures r.None? <==> from !in fs || (from != to && to in fs && !overwrite)
    ensures r.Some? && from != to ==>
      && to in r.value && r.value[to] == fs[from] && from !in r.value
      && forall q :: q != from && q != to ==> (q in r.value <==> q in fs) && (q in fs ==> r.value[q] == fs[q])
    ensures r.Some? && from == to ==> r.value == fs
  {
    if from !in fs then None
    else if from == to then Some(fs)
    else if to in fs && !overwrite then None
    else Some(fs[to := fs[from]] - {from})
  }

  /** Appending never shortens a file and keeps its lines. */
  lemma AppendKeepsEarlierLines(fs: FileStore, p: Path, line: string)
    ensures |Lines(Append(fs, p, line), p)| == |Lines(fs, p)| + 1
    ensures Lines(Append(fs, p, line), p)[..|Lines(fs, p)|] == Lines(fs, p)
  {
  }

  // ---------------------------------------------------------------------
  // Path arithmetic
  // ---------------------------------------------------------------------

  /** Index of the last occurrence of `c` in `s`. */
  function LastIndexOf(s: string, c: char): (r: Option<nat>)
    ensures r.Some? ==> r.value < |s| && s[r.value] == c && forall i :: r.value < i < |s| ==> s[i] != c
    ensures r.None? ==> c !in s
  {
    if s == [] then None
    else if s[|s| - 1] == c then Some(|s| - 1)
    else
      var r := LastIndexOf(s[..|s| - 1], c);
      assert forall x :: x in s ==> x in s[..|s| - 1] || x == s[|s| - 1];
      r
  }

  /** `Path.GetFileName`: what follows the last `/`. */
  function FileName(path: string): (r: string)
    ensures '/' !in r
    ensures |r| <= |path| && r == path[|path| - |r|..]
    ensures '/' !in path ==> r == path
    ensures '/' in path ==> |r| < |path| && path[|path| - |r| - 1] == '/'
  {
    match LastIndexOf(path, '/')
    case None => path
    case Some(k) =>
      var r := path[k + 1..];
      assert forall x :: x in r ==> exists i :: k < i < |path| && path[i] == x;
      r
  }

  /** `Path.GetExtension`: from the last `.` on, or nothing when there is no
      `.` or the name ends with it. */
  function Extension(file: string): (r: string)
    ensures |r| <= |file|
    ensures r == [] || (r[0] == '.' && |r| >= 2 && r == file[|file| - |r|..] && '.' !in r[1..])
    ensures '.' in file && !EndsWith(file, '.') ==> r != []
  {
    match LastIndexOf(file, '.')
    case None => []
    case Some(k) =>
      if k == |file| - 1 then []
      else
        var r := file[k..];
        assert forall x :: x in r[1..] ==> exists i :: k < i < |file| && file[i] == x;
        r
  }

  /** `Path.GetFileNameWithoutExtension`: up to the last `.`. */
  function Stem(file: string): (r: string)
    ensures |r| <= |file| && r == file[..|r|]
    ensures '.' !in file ==> r == file
    ensures '.' in file ==> |r| < |file| && file[|r|] == '.' && '.' !in file[|r| + 1..]
  {
    match LastIndexOf(file, '.')
    case None => file
    case Some(k) => file[..k]
  }

  /** Name and extension make up the file name again, except that a trailing
      `.` belongs to neither. */
  lemma StemAndExtension(file: string)
    ensures !EndsWith(file, '.') ==> Stem(file) + Extension(file) == file
    ensures EndsWith(file, '.') ==> Stem(file) == file[..|file| - 1] && Extension(file) == []
  {
    match LastIndexOf(file, '.')
    case None =>
      assert !EndsWith(file, '.') by {
        if file != [] {
          assert file[|file| - 1] in file;
        }
      }
    case Some(k) =>
      if k < |file| - 1 {
        assert file[..k] + file[k..] == file;
      }
  }

  /** `Path.Combine(dir, $"{name}_{k}{ext}")`: the `k`-th alternative name
      for a file that is taken. */
  function Numbered(p: Path, k: nat): (r: Path)
    ensures r.dir == p.dir
  {
    Path(p.dir, Stem(p.file) + "_" + NatToString(k) + Extension(p.file))
  }

  /** Different counters give different paths. */
  lemma NumberedInjective(p: Path, a: nat, b: nat)
    requires Numbered(p, a) == Numbered(p, b)
    ensures a == b
  {
    var pre, ext := Stem(p.file) + "_", Extension(p.file);
    var na, nb := NatToString(a), NatToString(b);
    var fa, fb := pre + na + ext, pre + nb + ext;
    assert fa == fb;
    assert |na| == |nb|;
    assert na == fa[|pre|..|pre| + |na|];
    assert nb == fb[|pre|..|pre| + |nb|];
    NatToStringInjective(a, b);
  }
}
