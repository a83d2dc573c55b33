/**
 * The few .NET string operations the importer relies on, written out on
 * `seq<char>`: white-space trimming as `char.IsWhiteSpace` defines it,
 * `String.Split` (with and without empty entries), ordinal suffix tests,
 * ASCII case folding and decimal rendering of counters.
 */
module Text {

  datatype Option<T> = None | Some(value: T)

  /** The characters `char.IsWhiteSpace` accepts (the Unicode white-space set). */
  const WhiteSpace: set<char> :=
    {'\U{0009}', '\U{000A}', '\U{000B}', '\U{000C}', '\U{000D}', ' ', '\U{0085}', '\U{00A0}',
     '\U{1680}', '\U{2000}', '\U{2001}', '\U{2002}', '\U{2003}', '\U{2004}', '\U{2005}', '\U{2006}',
     '\U{2007}', '\U{2008}', '\U{2009}', '\U{200A}', '\U{2028}', '\U{2029}', '\U{202F}', '\U{205F}',
     '\U{3000}'}

  predicate IsWhiteSpace(c: char) {
    c in WhiteSpace
  }

  /** Number of leading characters of `s` that belong to `cs`. */
  function LeadingIn(s: string, cs: set<char>): (n: nat)
    ensures n <= |s|
    ensures forall i :: 0 <= i < n ==> s[i] in cs
    ensures n < |s| ==> s[n] !in cs
  {
    if s == [] || s[0] !in cs then 0 else 1 + LeadingIn(s[1..], cs)
  }

  /** Number of trailing characters of `s` that belong to `cs`. */
  function TrailingIn(s: string, cs: set<char>): (n: nat)
    ensures n <= |s|
    ensures forall i :: |s| - n <= i < |s| ==> s[i] in cs
    ensures n < |s| ==> s[|s| - 1 - n] !in cs
  {
    if s == [] || s[|s| - 1] !in cs then 0 else 1 + TrailingIn(s[..|s| - 1], cs)
  }

  /** `String.TrimStart(chars)`: drop the longest prefix made of `cs`. */
  function TrimStartIn(s: string, cs: set<char>): (r: string)
    ensures |r| <= |s| && r == s[|s| - |r|..]
    ensures r == [] || r[0] !in cs
    ensures forall i :: 0 <= i < |s| - |r| ==> s[i] in cs
  {
    s[LeadingIn(s, cs)..]
  }

  /** `String.TrimEnd(chars)`: drop the longest suffix made of `cs`. */
  function TrimEndIn(s: string, cs: set<char>): (r: string)
    ensures |r| <= |s| && r == s[..|r|]
    ensures r == [] || r[|r| - 1] !in cs
    ensures forall i :: |r| <= i < |s| ==> s[i] in cs
  {
    s[..|s| - TrailingIn(s, cs)]
  }

  /** `String.Trim(chars)`: both ends. */
  function TrimIn(s: string, cs: set<char>): string {
    TrimStartIn(TrimEndIn(s, cs), cs)
  }

  function TrimStart(s: string): string { TrimStartIn(s, WhiteSpace) }

  function TrimEnd(s: string): string { TrimEndIn(s, WhiteSpace) }

  function Trim(s: string): string { TrimStart(TrimEnd(s)) }

  /** `string.IsNullOrWhiteSpace`. */
  predicate IsNullOrWhiteSpace(s: string) {
    forall i :: 0 <= i < |s| ==> IsWhiteSpace(s[i])
  }

  predicate StartsWith(s: string, c: char) {
    |s| > 0 && s[0] == c
  }

  predicate EndsWith(s: string, c: char) {
    |s| > 0 && s[|s| - 1] == c
  }

  /** Trimming the end first does not change whether a line is blank. */
  lemma BlankAfterTrimEnd(s: string)
    ensures IsNullOrWhiteSpace(TrimEnd(s)) <==> IsNullOrWhiteSpace(s)
    ensures IsNullOrWhiteSpace(s) <==> TrimStart(s) == []
  {
    var r := TrimEnd(s);
    if IsNullOrWhiteSpace(r) {
      assert r == [];
    }
    if TrimStart(s) == [] {
      assert forall i :: 0 <= i < |s| ==> s[i] in WhiteSpace;
    }
  }

  /** A line that is not blank begins, after trimming either way round, with the
      same character. */
  lemma FirstVisibleChar(s: string)
    requires !IsNullOrWhiteSpace(s)
    ensures TrimStart(TrimEnd(s)) != [] && TrimStart(s) != []
    ensures TrimStart(TrimEnd(s))[0] == TrimStart(s)[0]
  {
    var i :| 0 <= i < |s| && !IsWhiteSpace(s[i]);
    FirstVisibleIn(s, WhiteSpace, i);
  }

  /** The same for any set of trimmed characters, given a character `s[i]`
      outside it. */
  lemma FirstVisibleIn(s: string, cs: set<char>, i: nat)
    requires i < |s| && s[i] !in cs
    ensures TrimStartIn(TrimEndIn(s, cs), cs) != [] && TrimStartIn(s, cs) != []
    ensures TrimStartIn(TrimEndIn(s, cs), cs)[0] == TrimStartIn(s, cs)[0]
  {
    var r := TrimEndIn(s, cs);
    assert i < |r| && r[i] == s[i];
    var a, b := LeadingIn(r, cs), LeadingIn(s, cs);
    assert a <= i && b <= i;
    assert forall j :: 0 <= j < |r| ==> r[j] == s[j];
    assert a == b;
  }

  /** Trimming leaves a string whose two ends lie outside `cs` as it is. */
  lemma TrimNothing(s: string, cs: set<char>)
    requires s != [] ==> s[0] !in cs && s[|s| - 1] !in cs
    ensures TrimStartIn(s, cs) == s && TrimEndIn(s, cs) == s
  {
    assert LeadingIn(s, cs) == 0 && TrailingIn(s, cs) == 0;
  }

  /** Trimming the start drops exactly a prefix made of `cs`. */
  lemma TrimStartDrops(pre: string, s: string, cs: set<char>)
    requires forall i :: 0 <= i < |pre| ==> pre[i] in cs
    requires s == [] || s[0] !in cs
    ensures TrimStartIn(pre + s, cs) == s
  {
    var t := pre + s;
    assert forall i :: 0 <= i < |pre| ==> t[i] == pre[i];
    assert t[|pre|..] == s;
  }

  /** Characters of `cs` before a text whose two ends lie outside `cs`:
      trimming the start drops exactly them and trimming the end nothing. */
  lemma PaddedText(pre: string, s: string, cs: set<char>)
    requires forall i :: 0 <= i < |pre| ==> pre[i] in cs
    requires s != [] && s[0] !in cs && s[|s| - 1] !in cs
    ensures TrimStartIn(pre + s, cs) == s && TrimEndIn(pre + s, cs) == pre + s
  {
    TrimStartDrops(pre, s, cs);
    var t := pre + s;
    assert t[|t| - 1] == s[|s| - 1];
    assert TrailingIn(t, cs) == 0;
  }

  /** A marker `m` and one trimmed character `sp` before a text `a` whose
      ends are kept: the line keeps both its ends, and after the marker,
      trimmed, only `a` is left. */
  lemma MarkerThenText(m: char, sp: char, a: string, cs: set<char>)
    requires m !in cs && sp in cs
    requires a != [] && a[0] !in cs && a[|a| - 1] !in cs
    ensures var line := [m, sp] + a;
      && TrimStartIn(line, cs) == line && TrimEndIn(line, cs) == line
      && TrimStartIn(TrimEndIn(line[1..], cs), cs) == a
  {
    var line := [m, sp] + a;
    TrimNothing(line, cs);
    assert line[1..] == [sp] + a;
    assert TrimEndIn([sp] + a, cs) == [sp] + a by {
      assert TrailingIn([sp] + a, cs) == 0;
    }
    TrimStartDrops([sp], a, cs);
  }

  /** First index of a character of `cs` in `s`. */
  function IndexOfAny(s: string, cs: set<char>): (r: Option<nat>)
    ensures r.Some? ==> r.value < |s| && s[r.value] in cs && forall i :: 0 <= i < r.value ==> s[i] !in cs
    ensures r.None? ==> forall i :: 0 <= i < |s| ==> s[i] !in cs
  {
    if s == [] then None
    else if s[0] in cs then Some(0)
    else match IndexOfAny(s[1..], cs)
      case None => None
      case Some(k) => Some(k + 1)
  }

  /** The first index of a character of `cs` is the one before which none occurs. */
  lemma IndexOfAnyIs(s: string, cs: set<char>, k: nat)
    requires k < |s| && s[k] in cs && forall i :: 0 <= i < k ==> s[i] !in cs
    ensures IndexOfAny(s, cs) == Some(k)
  {
  }

  /** `String.Split(separators)` without options: every separator splits,
      empty pieces are kept. */
  function SplitOnAny(s: string, cs: set<char>): (r: seq<string>)
    ensures |r| >= 1
    ensures forall k, i :: 0 <= k < |r| && 0 <= i < |r[k]| ==> r[k][i] !in cs
    decreases |s|
  {
    match IndexOfAny(s, cs)
    case None => [s]
    case Some(k) => [s[..k]] + SplitOnAny(s[k + 1..], cs)
  }

  function SplitOn(s: string, sep: char): seq<string> { SplitOnAny(s, {sep}) }

  /** `String.Join(sep, parts)`. */
  function Join(parts: seq<string>, sep: char): string
    requires |parts| >= 1
  {
    if |parts| == 1 then parts[0] else parts[0] + [sep] + Join(parts[1..], sep)
  }

  /** Splitting on one character and joining the pieces back gives the text again. */
  lemma {:induction false} SplitJoin(s: string, sep: char)
    ensures Join(SplitOn(s, sep), sep) == s
    decreases |s|
  {
    match IndexOfAny(s, {sep})
    case None =>
    case Some(k) =>
      SplitJoin(s[k + 1..], sep);
      assert s == s[..k] + [sep] + s[k + 1..];
  }

  /** The `StringSplitOptions.RemoveEmptyEntries` filter. */
  function RemoveEmpty(parts: seq<string>): (r: seq<string>)
    ensures forall k :: 0 <= k < |r| ==> r[k] != [] && r[k] in parts
    ensures forall k :: 0 <= k < |parts| && parts[k] != [] ==> parts[k] in r
  {
    if parts == [] then []
    else if parts[0] == [] then RemoveEmpty(parts[1..])
    else [parts[0]] + RemoveEmpty(parts[1..])
  }

  const LineBreaks: set<char> := {'\n', '\r'}

  /** `Split(new[] { '\n', '\r' }, StringSplitOptions.RemoveEmptyEntries)`. */
  function SplitLines(s: string): (r: seq<string>)
    ensures forall k :: 0 <= k < |r| ==> r[k] != []
    ensures forall k, i :: 0 <= k < |r| && 0 <= i < |r[k]| ==> r[k][i] !in LineBreaks
  {
    var pieces := SplitOnAny(s, LineBreaks);
    var r := RemoveEmpty(pieces);
    assert forall k :: 0 <= k < |r| ==> r[k] in pieces;
    r
  }

  /** `String.Replace(c.ToString(), "")`. */
  function RemoveAll(s: string, c: char): (r: string)
    ensures c !in r
    ensures |r| <= |s|
    ensures c !in s ==> r == s
  {
    if s == [] then []
    else if s[0] == c then RemoveAll(s[1..], c)
    else [s[0]] + RemoveAll(s[1..], c)
  }

  /** Removing a character piecewise gives the same as removing it from the whole. */
  lemma {:induction false} RemoveAllConcat(a: string, b: string, c: char)
    ensures RemoveAll(a + b, c) == RemoveAll(a, c) + RemoveAll(b, c)
    decreases |a|
  {
    if a == [] {
      assert a + b == b;
    } else {
      assert (a + b)[0] == a[0] && (a + b)[1..] == a[1..] + b;
      RemoveAllConcat(a[1..], b, c);
    }
  }

  /** ASCII upper-case letters to lower case; other characters unchanged. */
  function LowerAscii(c: char): char {
    if 'A' <= c <= 'Z' then (c as int - 'A' as int + 'a' as int) as char else c
  }

  function LowerAsciiString(s: string): (r: string)
    ensures |r| == |s| && forall i :: 0 <= i < |s| ==> r[i] == LowerAscii(s[i])
  {
    if s == [] then [] else [LowerAscii(s[0])] + LowerAsciiString(s[1..])
  }

  /** `EndsWith(suffix, StringComparison.OrdinalIgnoreCase)`, with ASCII case folding. */
  predicate EndsWithIgnoreCase(s: string, suffix: string) {
    |suffix| <= |s| && LowerAsciiString(s[|s| - |suffix|..]) == LowerAsciiString(suffix)
  }

  function DigitChar(d: nat): char
    requires d < 10
  {
    ('0' as int + d) as char
  }

  /** Decimal rendering of a natural number, as `int.ToString()` gives it. */
  function NatToString(n: nat): (r: string)
    ensures |r| >= 1
    ensures n >= 10 ==> |r| >= 2
    decreases n
  {
    if n < 10 then [DigitChar(n)] else NatToString(n / 10) + [DigitChar(n % 10)]
  }

  /** Different numbers render differently. */
  lemma {:induction false} NatToStringInjective(a: nat, b: nat)
    requires NatToString(a) == NatToString(b)
    ensures a == b
    decreases a
  {
    var sa, sb := NatToString(a), NatToString(b);
    if a < 10 && b < 10 {
      assert DigitChar(a) == sa[0] == DigitChar(b);
    } else if a >= 10 && b >= 10 {
      assert sa[|sa| - 1] == DigitChar(a % 10) && sb[|sb| - 1] == DigitChar(b % 10);
      assert NatToString(a / 10) == sa[..|sa| - 1] == sb[..|sb| - 1] == NatToString(b / 10);
      NatToStringInjective(a / 10, b / 10);
    }
  }
}
