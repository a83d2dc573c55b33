/**
 * `ProcessWildcardLine` (WildcardProcessor.cs:427-436): two regular-expression
 * rewrites, each written as a left-to-right scanner that tries a match at
 * every position, takes the leftmost one, and resumes after it.
 *
 *   pass 1, `__(\w+)__`     ->  `<wildcard:NAME>`
 *   pass 2, `\{([^}]+)\}`   ->  `<random:X>` with every space removed from X
 */
module WildcardLine {
  import opened Text

  /** The word characters of `\w`, restricted to ASCII. */
  predicate IsWordChar(c: char) {
    'a' <= c <= 'z' || 'A' <= c <= 'Z' || '0' <= c <= '9' || c == '_'
  }

  predicate AllWord(s: string) {
    forall i :: 0 <= i < |s| ==> IsWordChar(s[i])
  }

  /** Length of the run of word characters at the start of `s`. */
  function WordRun(s: string): (n: nat)
    ensures n <= |s| && AllWord(s[..n])
    ensures n < |s| ==> !IsWordChar(s[n])
  {
    if s == [] || !IsWordChar(s[0]) then 0
    else
      var n := 1 + WordRun(s[1..]);
      assert forall i :: 1 <= i < n ==> s[..n][i] == s[1..][..n - 1][i - 1];
      n
  }

  /** A word run is pinned down by the first character that ends it. */
  lemma WordRunIs(s: string, n: nat)
    requires n <= |s| && AllWord(s[..n]) && (n < |s| ==> !IsWordChar(s[n]))
    ensures WordRun(s) == n
    decreases n
  {
    if n > 0 {
      assert s[..n][0] == s[0];
      var u := s[1..][..n - 1];
      assert forall i :: 0 <= i < n - 1 ==> u[i] == s[..n][i + 1];
      WordRunIs(s[1..], n - 1);
    }
  }

  predicate DoubleUnderscoreAt(s: string, q: nat) {
    q + 2 <= |s| && s[q] == '_' && s[q + 1] == '_'
  }

  /** The last `__` that starts at `lo` or later and ends by `hi`: where the
      greedy `\w+`, backing off from the end of the word run, finds the
      closing `__`. */
  function LastClose(s: string, lo: nat, hi: nat): (r: Option<nat>)
    requires hi <= |s|
    ensures r.Some? ==> lo <= r.value && r.value + 2 <= hi && DoubleUnderscoreAt(s, r.value)
    ensures r.Some? ==> forall q :: r.value < q && q + 2 <= hi ==> !DoubleUnderscoreAt(s, q)
    ensures r.None? ==> forall q :: lo <= q && q + 2 <= hi ==> !DoubleUnderscoreAt(s, q)
    decreases hi
  {
    if hi < lo + 2 then None
    else if DoubleUnderscoreAt(s, hi - 2) then Some(hi - 2)
    else LastClose(s, lo, hi - 1)
  }

  /** Where a `__NAME__` match that starts at the front of `s` closes, if one does. */
  function WildcardCloseAtFront(s: string): Option<nat> {
    if DoubleUnderscoreAt(s, 0) then LastClose(s, 3, 2 + WordRun(s[2..])) else None
  }

  /** The replacement for `__NAME__`. */
  function WildcardTag(name: string): string {
    "<wildcard:" + name + ">"
  }

  /** The replacement for `{X}`. */
  function RandomTag(x: string): string {
    "<random:" + RemoveAll(x, ' ') + ">"
  }

  /** Pass 1: every `__NAME__` becomes `<wildcard:NAME>`. */
  function WildcardPass(s: string): string
    decreases |s|
  {
    if s == [] then []
    else match WildcardCloseAtFront(s)
      case Some(q) => WildcardTag(s[2..q]) + WildcardPass(s[q + 2..])
      case None => [s[0]] + WildcardPass(s[1..])
  }

  /** Where a `{X}` match that starts at the front of `s` closes, if one does:
      the first `}`, with at least one character before it. */
  function RandomCloseAtFront(s: string): Option<nat> {
    if StartsWith(s, '{') then
      match IndexOfAny(s[1..], {'}'})
      case Some(k) => if k >= 1 then Some(k + 1) else None
      case None => None
    else None
  }

  /** Pass 2: every `{X}` becomes `<random:X>` without the spaces of X. */
  function RandomPass(s: string): string
    decreases |s|
  {
    if s == [] then []
    else match RandomCloseAtFront(s)
      case Some(q) => RandomTag(s[1..q]) + RandomPass(s[q + 1..])
      case None => [s[0]] + RandomPass(s[1..])
  }

  /** `ProcessWildcardLine`. */
  function ProcessWildcardLine(line: string): string {
    RandomPass(WildcardPass(line))
  }

  // ---------------------------------------------------------------------
  // Pass 1
  // ---------------------------------------------------------------------

  /** Text without `__` is left as it is. */
  lemma {:induction false} WildcardPassNoMarker(s: string)
    requires forall q :: !DoubleUnderscoreAt(s, q)
    ensures WildcardPass(s) == s
    decreases |s|
  {
    if s != [] {
      assert WildcardCloseAtFront(s).None?;
      forall q: nat ensures !DoubleUnderscoreAt(s[1..], q) {
        assert !DoubleUnderscoreAt(s, q + 1);
      }
      WildcardPassNoMarker(s[1..]);
    }
  }

  lemma NoUnderscoreNoMarker(s: string)
    requires '_' !in s
    ensures forall q :: !DoubleUnderscoreAt(s, q)
  {
    forall q: nat ensures !DoubleUnderscoreAt(s, q) {
      if q < |s| {
        assert s[q] in s;
      }
    }
  }

  /** A prefix without `_` is copied and the scan goes on after it. */
  lemma {:induction false} WildcardPassPrefix(pre: string, s: string)
    requires '_' !in pre
    ensures WildcardPass(pre + s) == pre + WildcardPass(s)
    decreases |pre|
  {
    if pre != [] {
      var t := pre + s;
      assert t[0] == pre[0] && pre[0] in pre;
      assert WildcardCloseAtFront(t).None?;
      assert t[1..] == pre[1..] + s;
      assert forall c :: c in pre[1..] ==> c in pre;
      calc {
        WildcardPass(t);
        [t[0]] + WildcardPass(t[1..]);
        { WildcardPassPrefix(pre[1..], s); }
        [pre[0]] + (pre[1..] + WildcardPass(s));
        { assert pre == [pre[0]] + pre[1..]; }
        pre + WildcardPass(s);
      }
    } else {
      assert pre + s == s;
    }
  }

  /** `__NAME__` followed by something that does not continue the word
      becomes `<wildcard:NAME>`.  NAME may itself contain `__`: the match runs
      to the last `__` of the word. */
  lemma WildcardToken(name: string, rest: string)
    requires name != [] && AllWord(name)
    requires rest == [] || !IsWordChar(rest[0])
    ensures WildcardPass("__" + name + "__" + rest) == WildcardTag(name) + WildcardPass(rest)
  {
    var s := "__" + name + "__" + rest;
    var q := |name| + 2;
    var w := s[2..];
    assert WordRun(w) == q by {
      assert w == name + "__" + rest;
      assert q < |w| ==> w[q] == rest[0];
      assert AllWord(w[..q]) by {
        assert w[..q] == name + "__";
      }
      WordRunIs(w, q);
    }
    assert DoubleUnderscoreAt(s, 0) && DoubleUnderscoreAt(s, q) by {
      assert s[q..q + 2] == "__";
    }
    assert WildcardCloseAtFront(s) == Some(q) by {
      assert LastClose(s, 3, q + 2) == Some(q);
    }
    assert s[2..q] == name && s[q + 2..] == rest;
  }

  // ---------------------------------------------------------------------
  // Pass 2
  // ---------------------------------------------------------------------

  /** Text without `{` is left as it is. */
  lemma {:induction false} RandomPassNoBrace(s: string)
    requires '{' !in s
    ensures RandomPass(s) == s
    decreases |s|
  {
    if s != [] {
      assert s[0] in s;
      assert RandomCloseAtFront(s).None?;
      assert forall c :: c in s[1..] ==> c in s;
      RandomPassNoBrace(s[1..]);
    }
  }

  /** A prefix without `{` is copied and the scan goes on after it. */
  lemma {:induction false} RandomPassPrefix(pre: string, s: string)
    requires '{' !in pre
    ensures RandomPass(pre + s) == pre + RandomPass(s)
    decreases |pre|
  {
    if pre != [] {
      var t := pre + s;
      assert t[0] == pre[0] && pre[0] in pre;
      assert RandomCloseAtFront(t).None?;
      assert t[1..] == pre[1..] + s;
      assert forall c :: c in pre[1..] ==> c in pre;
      calc {
        RandomPass(t);
        [t[0]] + RandomPass(t[1..]);
        { RandomPassPrefix(pre[1..], s); }
        [pre[0]] + (pre[1..] + RandomPass(s));
        { assert pre == [pre[0]] + pre[1..]; }
        pre + RandomPass(s);
      }
    } else {
      assert pre + s == s;
    }
  }

  /** `{X}` with a non-empty X free of `}` becomes `<random:X>` with the
      spaces of X removed. */
  lemma RandomToken(x: string, rest: string)
    requires x != [] && '}' !in x
    ensures RandomPass("{" + x + "}" + rest) == RandomTag(x) + RandomPass(rest)
  {
    var s := "{" + x + "}" + rest;
    var t := s[1..];
    assert IndexOfAny(t, {'}'}) == Some(|x|) by {
      assert t == x + "}" + rest;
      assert forall i :: 0 <= i < |x| ==> t[i] == x[i] && x[i] in x;
      assert t[|x|] == '}';
    }
    assert RandomCloseAtFront(s) == Some(|x| + 1) by {
      assert StartsWith(s, '{');
    }
    assert s[1..|x| + 1] == x && s[|x| + 2..] == rest;
  }

  /** `{}` has nothing between the braces and is not rewritten. */
  lemma EmptyBracesStay()
    ensures ProcessWildcardLine("{}") == "{}"
  {
    assert forall q :: !DoubleUnderscoreAt("{}", q);
    WildcardPassNoMarker("{}");
    var s := "{}";
    assert IndexOfAny(s[1..], {'}'}) == Some(0);
    assert RandomCloseAtFront(s).None?;
    assert s[1..] == "}";
    RandomPassNoBrace("}");
  }

  // ---------------------------------------------------------------------
  // Both passes
  // ---------------------------------------------------------------------

  /** No position of `s` starts a `__NAME__` match. */
  predicate NoWildcardStart(s: string) {
    forall q :: 0 <= q < |s| ==> WildcardCloseAtFront(s[q..]).None?
  }

  /** No position of `s` starts a `{X}` match. */
  predicate NoRandomStart(s: string) {
    forall q :: 0 <= q < |s| ==> RandomCloseAtFront(s[q..]).None?
  }

  /** A `__` at the front starts no match exactly when no closing `__` begins
      inside the word run after it, past its first character. */
  lemma WildcardStartIff(t: string)
    ensures WildcardCloseAtFront(t).None? <==>
      !DoubleUnderscoreAt(t, 0) || forall q :: 3 <= q && q + 2 <= 2 + WordRun(t[2..]) ==> !DoubleUnderscoreAt(t, q)
  {
  }

  /** Pass 1 leaves `s` as it is exactly when no position starts a match. */
  lemma {:induction false} WildcardPassFixedIff(s: string)
    ensures WildcardPass(s) == s <==> NoWildcardStart(s)
    decreases |s|
  {
    if s != [] {
      WildcardPassFixedIff(s[1..]);
      assert NoWildcardStart(s) <==> WildcardCloseAtFront(s).None? && NoWildcardStart(s[1..]) by {
        assert s[0..] == s;
        forall q | 1 <= q < |s| ensures s[1..][q - 1..] == s[q..] { }
      }
      WildcardPassFront(s);
    }
  }

  /** Pass 1 changes the first character when a match starts there, and
      otherwise keeps it and goes on with the rest. */
  lemma WildcardPassFront(s: string)
    requires s != []
    ensures WildcardCloseAtFront(s).Some? ==> WildcardPass(s) != s
    ensures WildcardCloseAtFront(s).None? ==> (WildcardPass(s) == s <==> WildcardPass(s[1..]) == s[1..])
  {
    match WildcardCloseAtFront(s)
    case Some(q) =>
      assert WildcardPass(s)[0] == '<' != s[0];
    case None =>
      assert WildcardPass(s) == [s[0]] + WildcardPass(s[1..]);
      assert s == [s[0]] + s[1..];
  }

  /** Pass 2 leaves `s` as it is exactly when no position starts a match. */
  lemma {:induction false} RandomPassFixedIff(s: string)
    ensures RandomPass(s) == s <==> NoRandomStart(s)
    decreases |s|
  {
    if s != [] {
      RandomPassFixedIff(s[1..]);
      assert NoRandomStart(s) <==> RandomCloseAtFront(s).None? && NoRandomStart(s[1..]) by {
        assert s[0..] == s;
        forall q | 1 <= q < |s| ensures s[1..][q - 1..] == s[q..] { }
      }
      RandomPassFront(s);
    }
  }

  /** Pass 2 changes the first character when a match starts there, and
      otherwise keeps it and goes on with the rest. */
  lemma RandomPassFront(s: string)
    requires s != []
    ensures RandomCloseAtFront(s).Some? ==> RandomPass(s) != s
    ensures RandomCloseAtFront(s).None? ==> (RandomPass(s) == s <==> RandomPass(s[1..]) == s[1..])
  {
    match RandomCloseAtFront(s)
    case Some(q) =>
      assert RandomPass(s)[0] == '<' != s[0];
    case None =>
      assert RandomPass(s) == [s[0]] + RandomPass(s[1..]);
      assert s == [s[0]] + s[1..];
  }

  /** Without a `}` no `{X}` match can start. */
  lemma RandomPassNoClose(s: string)
    requires '}' !in s
    ensures NoRandomStart(s) && RandomPass(s) == s
  {
    forall q | 0 <= q < |s| ensures RandomCloseAtFront(s[q..]).None? {
      if StartsWith(s[q..], '{') {
        assert forall i :: 0 <= i < |s[q..][1..]| ==> s[q..][1..][i] == s[q + 1 + i];
      }
    }
    RandomPassFixedIff(s);
  }

  /** A line in which no position starts a match of either pattern comes out
      unchanged. */
  lemma PlainLineUnchanged(line: string)
    requires NoWildcardStart(line) && NoRandomStart(line)
    ensures ProcessWildcardLine(line) == line
  {
    WildcardPassFixedIff(line);
    RandomPassFixedIff(line);
  }

  /** A lone `__` with no other `_` on the line, and no `}`, is left alone:
      the word run after it holds no closing `__`. */
  lemma LoneDoubleUnderscore(pre: string, post: string)
    requires '_' !in pre && '_' !in post && '}' !in pre && '}' !in post
    ensures ProcessWildcardLine(pre + "__" + post) == pre + "__" + post
  {
    var s := pre + "__" + post;
    forall q | 0 <= q < |s| ensures WildcardCloseAtFront(s[q..]).None? {
      var t := s[q..];
      if q == |pre| {
        assert forall j :: 2 <= j < |t| ==> t[j] == post[j - 2];
        WildcardStartIff(t);
      } else if q < |pre| {
        assert t[0] == pre[q];
      } else if q + 2 < |s| {
        assert t[1] == post[q + 1 - |pre| - 2];
      }
    }
    WildcardPassFixedIff(s);
    assert '}' !in s by {
      assert forall j :: 0 <= j < |s| ==> s[j] == '_' || s[j] in pre || s[j] in post;
    }
    RandomPassNoClose(s);
  }

  /** Pass 1 on one `__NAME__` after a prefix without `_`. */
  lemma WildcardAfterPrefix(pre: string, name: string, rest: string)
    requires '_' !in pre && name != [] && AllWord(name)
    requires rest == [] || !IsWordChar(rest[0])
    ensures WildcardPass(pre + "__" + name + "__" + rest) == pre + WildcardTag(name) + WildcardPass(rest)
  {
    var token := "__" + name + "__" + rest;
    assert pre + "__" + name + "__" + rest == pre + token;
    assert WildcardPass(pre + token) == pre + WildcardPass(token) by {
      WildcardPassPrefix(pre, token);
    }
    assert WildcardPass(token) == WildcardTag(name) + WildcardPass(rest) by {
      WildcardToken(name, rest);
    }
    assert pre + (WildcardTag(name) + WildcardPass(rest)) == pre + WildcardTag(name) + WildcardPass(rest);
  }

  /** One `__NAME__` in otherwise plain text. */
  lemma OneWildcard(pre: string, name: string, rest: string)
    requires '_' !in pre && '{' !in pre
    requires name != [] && AllWord(name) && '{' !in name
    requires '_' !in rest && '{' !in rest && (rest == [] || !IsWordChar(rest[0]))
    ensures ProcessWildcardLine(pre + "__" + name + "__" + rest) == pre + WildcardTag(name) + rest
  {
    WildcardAfterPrefix(pre, name, rest);
    WildcardPassNoUnderscore(rest);
    var out := pre + WildcardTag(name) + rest;
    assert '{' !in WildcardTag(name);
    RandomPassNoBrace(out);
  }

  /** Pass 1 leaves a line without `_` as it is. */
  lemma WildcardPassNoUnderscore(s: string)
    requires '_' !in s
    ensures WildcardPass(s) == s
  {
    NoUnderscoreNoMarker(s);
    WildcardPassNoMarker(s);
  }

  /** Pass 2 on one `{X}` after a prefix without `{`. */
  lemma RandomAfterPrefix(pre: string, x: string, rest: string)
    requires '{' !in pre && x != [] && '}' !in x
    ensures RandomPass(pre + "{" + x + "}" + rest) == pre + RandomTag(x) + RandomPass(rest)
  {
    var token := "{" + x + "}" + rest;
    assert pre + "{" + x + "}" + rest == pre + token;
    RandomPassPrefix(pre, token);
    RandomToken(x, rest);
    assert pre + (RandomTag(x) + RandomPass(rest)) == pre + RandomTag(x) + RandomPass(rest);
  }

  /** One `{X}` in text without `_`. */
  lemma OneRandom(pre: string, x: string, rest: string)
    requires '_' !in pre && '{' !in pre
    requires x != [] && '}' !in x && '_' !in x
    requires '_' !in rest
    ensures ProcessWildcardLine(pre + "{" + x + "}" + rest) == pre + RandomTag(x) + RandomPass(rest)
  {
    WildcardPassNoUnderscore(pre + "{" + x + "}" + rest);
    RandomAfterPrefix(pre, x, rest);
  }

  lemma WildcardExample(line: string)
    requires line == "a __foo__ b"
    ensures ProcessWildcardLine(line) == "a <wildcard:foo> b"
  {
    OneWildcard("a ", "foo", " b");
    assert line == "a " + "__" + "foo" + "__" + " b";
    assert "a " + WildcardTag("foo") + " b" == "a <wildcard:foo> b";
  }

  /** A space inside the braces goes; the text around the braces stays. */
  lemma SpaceInsideBracesGoes(pre: string, a: string, b: string)
    requires '_' !in pre && '{' !in pre
    requires ' ' !in a && '}' !in a && '_' !in a
    requires ' ' !in b && '}' !in b && '_' !in b
    ensures ProcessWildcardLine(pre + "{" + a + " " + b + "}") == pre + "<random:" + a + b + ">"
  {
    var x := a + [' '] + b;
    var tag := "<random:" + (a + b) + ">";
    assert RandomTag(x) == tag by {
      SpaceRemoved(a, b);
    }
    assert ProcessWildcardLine(pre + "{" + x + "}" + []) == pre + RandomTag(x) + [] by {
      SpacedAvoids(a, b, '}');
      SpacedAvoids(a, b, '_');
      OneRandom(pre, x, []);
      assert RandomPass([]) == [];
    }
    assert pre + "{" + a + " " + b + "}" == pre + "{" + x + "}" + [];
    assert pre + tag + [] == pre + "<random:" + a + b + ">";
  }

  lemma SpacedAvoids(a: string, b: string, c: char)
    requires c !in a && c !in b && c != ' '
    ensures c !in a + [' '] + b
  {
    var x := a + [' '] + b;
    forall i | 0 <= i < |x|
      ensures x[i] != c
    {
      if i < |a| {
        assert x[i] == a[i];
      } else if |a| < i {
        assert x[i] == b[i - |a| - 1];
      }
    }
  }

  lemma SpaceRemoved(a: string, b: string)
    requires ' ' !in a && ' ' !in b
    ensures RemoveAll(a + [' '] + b, ' ') == a + b
  {
    var sp := [' '];
    assert RemoveAll(sp, ' ') == [] by {
      assert sp[1..] == [];
    }
    assert RemoveAll(a + sp + b, ' ') == RemoveAll(a + sp, ' ') + RemoveAll(b, ' ') by {
      RemoveAllConcat(a + sp, b, ' ');
    }
    assert RemoveAll(a + sp, ' ') == RemoveAll(a, ' ') + RemoveAll(sp, ' ') by {
      RemoveAllConcat(a, sp, ' ');
    }
    assert RemoveAll(a, ' ') + [] == a;
  }

  /** The example of the wildcard syntax: `{a b}` becomes `<random:ab>`. */
  lemma RandomExample(line: string)
    requires line == "pick {a b}"
    ensures ProcessWildcardLine(line) == "pick <random:ab>"
  {
    SpaceInsideBracesGoes("pick ", "a", "b");
    assert line == "pick " + "{" + "a" + " " + "b" + "}";
    assert "pick " + "<random:" + "a" + "b" + ">" == "pick <random:ab>";
  }

  /** The greedy `\w+` reaches the last `__` of the word. */
  lemma UnderscoresInsideName(a: string, b: string)
    requires a != [] && AllWord(a) && '{' !in a
    requires AllWord(b) && '{' !in b
    ensures ProcessWildcardLine("__" + a + "__" + b + "__") == WildcardTag(a + "__" + b)
  {
    var name := a + "__" + b;
    assert AllWord(name) && '{' !in name by {
      assert forall i :: 0 <= i < |name| ==> name[i] in a || name[i] == '_' || name[i] in b;
    }
    OneWildcard("", name, "");
    assert "" + "__" + name + "__" + "" == "__" + a + "__" + b + "__";
    assert "" + WildcardTag(name) + "" == WildcardTag(name);
  }

  /** A tag holds a `{` only when its name does. */
  lemma TagHasNoBrace(name: string)
    requires '{' !in name
    ensures '{' !in WildcardTag(name)
  {
    assert forall c :: c in WildcardTag(name) ==> c in "<wildcard:>" || c in name;
  }

  /** Pass 1 rewrites one `__NAME__` and leaves a tail without `_` alone. */
  lemma WildcardBeforeTail(pre: string, name: string, rest: string)
    requires '_' !in pre && name != [] && AllWord(name)
    requires '_' !in rest && (rest == [] || !IsWordChar(rest[0]))
    ensures WildcardPass(pre + "__" + name + "__" + rest) == pre + WildcardTag(name) + rest
  {
    WildcardAfterPrefix(pre, name, rest);
    WildcardPassNoUnderscore(rest);
  }

  /** The text after a `__NAME__` that opens with `{X}` after a run of
      non-word text holds no `_` and does not start with a word character. */
  lemma BraceTail(mid: string, x: string, post: string)
    requires '_' !in mid && (mid == [] || !IsWordChar(mid[0]))
    requires '_' !in x && '_' !in post
    ensures var rest := mid + ("{" + x + "}" + post);
      '_' !in rest && (rest == [] || !IsWordChar(rest[0]))
  {
    var tail := "{" + x + "}" + post;
    assert '_' !in tail && tail[0] == '{';
    if mid == [] { assert mid + tail == tail; }
  }

  /** The two ways the line of `WildcardThenRandom` is cut: around the
      name for pass 1, around the braces for pass 2. */
  lemma ThenRandomCuts(pre: string, name: string, tag: string, mid: string, x: string, post: string)
    ensures pre + "__" + name + "__" + mid + "{" + x + "}" + post == pre + "__" + name + "__" + (mid + ("{" + x + "}" + post))
    ensures pre + tag + (mid + ("{" + x + "}" + post)) == (pre + tag + mid) + "{" + x + "}" + post
    ensures (pre + tag + mid) + RandomTag(x) + RandomPass(post) == pre + tag + mid + RandomTag(x) + RandomPass(post)
  {
  }

  /** One `__NAME__` and then one `{X}` on the same line, pass 2 seeing the
      tag that pass 1 wrote. */
  lemma WildcardThenRandom(pre: string, name: string, mid: string, x: string, post: string)
    requires '_' !in pre && '{' !in pre && name != [] && AllWord(name) && '{' !in name
    requires '_' !in mid && '{' !in mid && (mid == [] || !IsWordChar(mid[0]))
    requires x != [] && '}' !in x && '_' !in x && '_' !in post
    ensures ProcessWildcardLine(pre + "__" + name + "__" + mid + "{" + x + "}" + post)
      == pre + WildcardTag(name) + mid + RandomTag(x) + RandomPass(post)
  {
    var rest := mid + ("{" + x + "}" + post);
    ThenRandomCuts(pre, name, WildcardTag(name), mid, x, post);
    BraceTail(mid, x, post);
    WildcardBeforeTail(pre, name, rest);
    TagHasNoBrace(name);
    RandomAfterPrefix(pre + WildcardTag(name) + mid, x, post);
  }
}
