/**
 * The restricted, indentation-scoped markup parser (YamlParser.cs).
 *
 * The parser reads the text line by line and keeps a stack of frames, each an
 * indentation column and the container being filled at that column.  The
 * root frame is an empty map at column -1.  In the source every frame holds a
 * reference into the tree; here a frame holds the container's current value,
 * with the key it sits under in the frame below.  A `key:` line stores an
 * empty container under the key at once (so the key takes its place in the
 * parent's order) and pushes a frame for it; popping a frame writes its
 * container back under that key.  Only the top container is ever changed, and
 * it is changed only when every frame above it has been popped, so this
 * carries the same information as the shared references.
 */
module YamlParser {
  import opened Text

  /** A parsed document: scalars, lists and insertion-ordered maps. */
  datatype Node = Scalar(value: string) | Seq(items: seq<Node>) | Map(entries: seq<(string, Node)>)

  // ---------------------------------------------------------------------
  // Insertion-ordered maps (the .NET Dictionary as this parser uses it:
  // no removals, so enumeration order is insertion order)
  // ---------------------------------------------------------------------

  function KeysOf(es: seq<(string, Node)>): (r: seq<string>)
    ensures |r| == |es| && forall i :: 0 <= i < |es| ==> r[i] == es[i].0
  {
    if es == [] then [] else [es[0].0] + KeysOf(es[1..])
  }

  /** `GetLastKey`: the most recently inserted key, none for an empty map
      (lines 171-183). */
  function LastKey(es: seq<(string, Node)>): (r: Option<string>)
    ensures r.None? <==> es == []
    ensures r.Some? ==> r.value == KeysOf(es)[|es| - 1] && r.value in KeysOf(es)
  {
    if es == [] then None else Some(es[|es| - 1].0)
  }

  predicate UniqueKeys(es: seq<(string, Node)>) {
    forall i, j :: 0 <= i < j < |es| ==> es[i].0 != es[j].0
  }

  /** Position of key `k`, if present. */
  function FindKey(es: seq<(string, Node)>, k: string): (r: Option<nat>)
    ensures r.Some? ==> r.value < |es| && es[r.value].0 == k
    ensures r.Some? ==> forall j :: 0 <= j < r.value ==> es[j].0 != k
    ensures r.None? ==> forall j :: 0 <= j < |es| ==> es[j].0 != k
  {
    if es == [] then None
    else if es[0].0 == k then Some(0)
    else match FindKey(es[1..], k)
      case None => None
      case Some(j) => Some(j + 1)
  }

  /** `map.TryGetValue(k)`. */
  function Lookup(es: seq<(string, Node)>, k: string): Option<Node> {
    match FindKey(es, k)
    case None => None
    case Some(i) => Some(es[i].1)
  }

  /** Two entry lists with the same keys in the same order find every key at
      the same position. */
  lemma {:induction false} FindKeyByKeys(a: seq<(string, Node)>, b: seq<(string, Node)>, k: string)
    requires |a| == |b| && forall i :: 0 <= i < |a| ==> a[i].0 == b[i].0
    ensures FindKey(a, k) == FindKey(b, k)
  {
    if a != [] && a[0].0 != k {
      FindKeyByKeys(a[1..], b[1..], k);
    }
  }

  /** Finding a key is not affected by an entry added after the list. */
  lemma {:induction false} FindKeyAppend(es: seq<(string, Node)>, e: (string, Node), k: string)
    ensures FindKey(es + [e], k) == match FindKey(es, k) case Some(i) => Some(i) case None => if e.0 == k then Some(|es|) else None
  {
    if es != [] {
      assert (es + [e])[1..] == es[1..] + [e];
      if es[0].0 != k {
        FindKeyAppend(es[1..], e, k);
      }
    }
  }

  /** `map[k] = v`: an existing key keeps its position and takes the new value;
      a new key goes last.  Every other key keeps its value. */
  function Put(es: seq<(string, Node)>, k: string, v: Node): (r: seq<(string, Node)>)
    ensures FindKey(es, k).Some? ==> KeysOf(r) == KeysOf(es)
    ensures FindKey(es, k).None? ==> KeysOf(r) == KeysOf(es) + [k]
    ensures Lookup(r, k) == Some(v)
    ensures forall k' :: k' != k ==> Lookup(r, k') == Lookup(es, k')
    ensures UniqueKeys(es) ==> UniqueKeys(r)
  {
    match FindKey(es, k)
    case Some(i) => PutExisting(es, k, v, i); es[i := (k, v)]
    case None => PutNew(es, k, v); es + [(k, v)]
  }

  lemma PutExisting(es: seq<(string, Node)>, k: string, v: Node, i: nat)
    requires FindKey(es, k) == Some(i)
    ensures KeysOf(es[i := (k, v)]) == KeysOf(es)
    ensures forall k' :: Lookup(es[i := (k, v)], k') == if k' == k then Some(v) else Lookup(es, k')
  {
    var r := es[i := (k, v)];
    assert KeysOf(r) == KeysOf(es);
    forall k' ensures Lookup(r, k') == if k' == k then Some(v) else Lookup(es, k') {
      FindKeyByKeys(r, es, k');
    }
  }

  lemma PutNew(es: seq<(string, Node)>, k: string, v: Node)
    requires FindKey(es, k).None?
    ensures KeysOf(es + [(k, v)]) == KeysOf(es) + [k]
    ensures forall k' :: Lookup(es + [(k, v)], k') == if k' == k then Some(v) else Lookup(es, k')
  {
    var r := es + [(k, v)];
    assert KeysOf(r) == KeysOf(es) + [k];
    forall k' ensures Lookup(r, k') == if k' == k then Some(v) else Lookup(es, k') {
      FindKeyAppend(es, (k, v), k');
    }
  }

  // ---------------------------------------------------------------------
  // Shape of parse results
  // ---------------------------------------------------------------------

  predicate ScalarsOnly(items: seq<Node>) {
    forall i :: 0 <= i < |items| ==> items[i].Scalar?
  }

  /** The shapes the parser builds: lists hold scalars only, map keys are
      unique, and map values are scalars, such lists or such maps. */
  predicate WellFormed(n: Node)
    decreases n
  {
    match n
    case Scalar(_) => true
    case Seq(items) => ScalarsOnly(items)
    case Map(es) => UniqueKeys(es) && forall i :: 0 <= i < |es| ==> WellFormed(es[i].1)
  }

  lemma PutWellFormed(es: seq<(string, Node)>, k: string, v: Node)
    requires WellFormed(Map(es)) && WellFormed(v)
    ensures WellFormed(Map(Put(es, k, v)))
  {
    var r := Put(es, k, v);
    assert UniqueKeys(r);
    forall i | 0 <= i < |r| ensures WellFormed(r[i].1) {
      var key := r[i].0;
      assert FindKey(r, key) == Some(i);
      if key != k {
        assert Lookup(r, key) == Lookup(es, key);
        var j := FindKey(es, key).value;
        assert r[i].1 == es[j].1;
      }
    }
  }

  // ---------------------------------------------------------------------
  // The frame stack
  // ---------------------------------------------------------------------

  /** One stack entry: the column it was opened at, the key it sits under in
      the frame below (unused for the root) and its container. */
  datatype Frame = Frame(indent: int, key: string, node: Node)

  type Stack = seq<Frame>

  /** The stack invariants: the root map at column -1 is at the bottom,
      columns strictly increase upwards, every frame but the top holds a map,
      and every container is well formed. */
  predicate ValidStack(st: Stack) {
    && |st| >= 1
    && st[0].indent == -1
    && st[0].node.Map?
    && (forall i :: 0 < i < |st| ==> st[i - 1].indent < st[i].indent)
    && (forall i :: 0 <= i < |st| - 1 ==> st[i].node.Map?)
    && (forall i :: 0 <= i < |st| ==> WellFormed(st[i].node))
  }

  const InitialStack: Stack := [Frame(-1, "", Map([]))]

  function Top(st: Stack): Frame
    requires |st| >= 1
  {
    st[|st| - 1]
  }

  /** Replace the top container. */
  function SetTop(st: Stack, n: Node): (r: Stack)
    requires ValidStack(st) && WellFormed(n) && (|st| == 1 ==> n.Map?)
    ensures ValidStack(r) && |r| == |st| && r[..|st| - 1] == st[..|st| - 1]
    ensures Top(r) == Frame(Top(st).indent, Top(st).key, n)
  {
    st[|st| - 1 := Frame(Top(st).indent, Top(st).key, n)]
  }

  /** `stack.Push((indent, container))` for a container just stored in the top map. */
  function Push(st: Stack, f: Frame): (r: Stack)
    requires ValidStack(st) && Top(st).node.Map? && Top(st).indent < f.indent && WellFormed(f.node)
    ensures ValidStack(r) && r == st + [f]
  {
    var r := st + [f];
    assert forall i :: 0 <= i < |st| ==> r[i] == st[i];
    r
  }

  /** `stack.Pop()`: the top container goes back under its key in the frame below. */
  function Pop(st: Stack): (r: Stack)
    requires ValidStack(st) && |st| >= 2
    ensures ValidStack(r) && |r| == |st| - 1
    ensures r[..|r| - 1] == st[..|r| - 1]
    ensures Top(r).indent == st[|st| - 2].indent
  {
    var parent, child := st[|st| - 2], Top(st);
    PutWellFormed(parent.node.entries, child.key, child.node);
    st[..|st| - 2] + [Frame(parent.indent, parent.key, Map(Put(parent.node.entries, child.key, child.node)))]
  }

  /** The popping loop: pop while the top frame's column is at or right of the
      line's column.  The root, at -1, is never popped. */
  function PopTo(st: Stack, indent: nat): (r: Stack)
    requires ValidStack(st)
    ensures ValidStack(r) && 1 <= |r| <= |st|
    ensures Top(r).indent < indent
    ensures r[..|r| - 1] == st[..|r| - 1]
    decreases |st|
  {
    if Top(st).indent >= indent then PopTo(Pop(st), indent) else st
  }

  /** Popping keeps the columns of the frames it leaves. */
  lemma PopKeepsColumns(st: Stack)
    requires ValidStack(st) && |st| >= 2
    ensures forall i :: 0 <= i < |Pop(st)| ==> Pop(st)[i].indent == st[i].indent
  {
    var r := Pop(st);
    assert forall i :: 0 <= i < |r| - 1 ==> r[i] == r[..|r| - 1][i];
  }

  /** The popping loop stops at the first frame, from the top, whose column
      is left of the line's: every frame it removed was at or right of the
      line's column, and the frame it stops at keeps its column. */
  lemma PopToStops(st: Stack, indent: nat)
    requires ValidStack(st)
    ensures var r := PopTo(st, indent);
      && Top(r).indent == st[|r| - 1].indent
      && forall i :: |r| <= i < |st| ==> st[i].indent >= indent
  {
    PopToKeepsColumn(st, indent);
    PopToRemovesRight(st, indent);
  }

  lemma {:induction false} PopToKeepsColumn(st: Stack, indent: nat)
    requires ValidStack(st)
    ensures Top(PopTo(st, indent)).indent == st[|PopTo(st, indent)| - 1].indent
    decreases |st|
  {
    if Top(st).indent >= indent {
      var p := Pop(st);
      PopKeepsColumns(st);
      PopToKeepsColumn(p, indent);
      assert |PopTo(p, indent)| <= |p|;
    }
  }

  lemma {:induction false} PopToRemovesRight(st: Stack, indent: nat)
    requires ValidStack(st)
    ensures forall i :: |PopTo(st, indent)| <= i < |st| ==> st[i].indent >= indent
    decreases |st|
  {
    if Top(st).indent >= indent {
      var p := Pop(st);
      PopKeepsColumns(st);
      PopToRemovesRight(p, indent);
    }
  }

  /** The tree the stack stands for: every frame written back into the root. */
  function Collapse(st: Stack): (r: Node)
    requires ValidStack(st)
    ensures r.Map? && WellFormed(r)
    decreases |st|
  {
    if |st| == 1 then st[0].node else Collapse(Pop(st))
  }

  /** Closing scopes does not change the document. */
  lemma {:induction false} PopToKeepsTree(st: Stack, indent: nat)
    requires ValidStack(st)
    ensures Collapse(PopTo(st, indent)) == Collapse(st)
    decreases |st|
  {
    if Top(st).indent >= indent {
      PopToKeepsTree(Pop(st), indent);
    }
  }

  // ---------------------------------------------------------------------
  // One line
  // ---------------------------------------------------------------------

  /** The test both the main loop and the look-ahead use to skip a line:
      blank, or a comment. */
  predicate IsSkipped(line: string) {
    IsNullOrWhiteSpace(line) || StartsWith(TrimStart(line), '#')
  }

  /** The look-ahead after `key:`: is the next line that is neither blank nor a
      comment a list item? */
  function NextIsItem(rest: seq<string>): bool
    decreases |rest|
  {
    if rest == [] then false
    else
      var next := TrimStart(rest[0]);
      if IsNullOrWhiteSpace(next) || StartsWith(next, '#') then NextIsItem(rest[1..])
      else StartsWith(next, '-')
  }

  /** What a map's last value becomes under a `- item` line: the list with the
      item added, or, for any other value, the one-item list (lines 59-68). */
  function WithItem(prev: Node, item: string): (r: Node)
    ensures r.Seq? && (WellFormed(prev) ==> WellFormed(r))
    ensures prev.Seq? ==> r.items == prev.items + [Scalar(item)]
    ensures !prev.Seq? ==> r.items == [Scalar(item)]
  {
    if prev.Seq? then Seq(prev.items + [Scalar(item)]) else Seq([Scalar(item)])
  }

  /** A `- item` line applied to the current container (lines 37-74). */
  function ApplyItem(n: Node, item: string): (r: Node)
    ensures n.Seq? ==> r == Seq(n.items + [Scalar(item)])
    ensures n.Map? && n.entries == [] ==> r == n
    ensures n.Map? && n.entries != [] ==>
      var es := n.entries;
      var (last, prev) := es[|es| - 1];
      && r.Map?
      && KeysOf(r.entries) == KeysOf(es)
      && Lookup(r.entries, last) == Some(WithItem(prev, item))
      && forall k :: k != last ==> Lookup(r.entries, k) == Lookup(es, k)
    ensures n.Scalar? ==> r == n
    ensures WellFormed(n) ==> WellFormed(r) && r.Map? == n.Map?
  {
    match n
    case Seq(items) => Seq(items + [Scalar(item)])
    case Map(es) =>
      (match LastKey(es)
       case None => n
       case Some(last) =>
         var v := WithItem(es[|es| - 1].1, item);
         if WellFormed(n) then
           assert WellFormed(es[|es| - 1].1);
           PutWellFormed(es, last, v);
           Map(Put(es, last, v))
         else Map(Put(es, last, v)))
    case Scalar(_) => n
  }

  predicate IsInlineList(value: string) {
    StartsWith(value, '[') && EndsWith(value, ']')
  }

  /** The comma-separated pieces of an inline list: `valuePart.Trim('[', ']').Split(',')`. */
  function InlinePieces(value: string): seq<string> {
    SplitOn(TrimIn(value, {'[', ']'}), ',')
  }

  /** The items of an inline list: every piece, trimmed, as a scalar. */
  function InlineItems(value: string): (r: seq<Node>)
    ensures |r| == |InlinePieces(value)| >= 1
    ensures forall i :: 0 <= i < |r| ==> r[i] == Scalar(Trim(InlinePieces(value)[i]))
  {
    var parts := InlinePieces(value);
    seq(|parts|, i requires 0 <= i < |parts| => Scalar(Trim(parts[i])))
  }

  /** What a non-empty `key: value` stores: an inline list or a scalar. */
  function ValueNode(value: string): (r: Node)
    ensures WellFormed(r) && !r.Map?
    ensures IsInlineList(value) ==> r == Seq(InlineItems(value))
    ensures !IsInlineList(value) ==> r == Scalar(value)
  {
    if IsInlineList(value) then Seq(InlineItems(value)) else Scalar(value)
  }

  /** The line after its leading `-`, trimmed. */
  function ItemText(body: string): string
    requires StartsWith(body, '-')
  {
    Trim(body[1..])
  }

  /** A `- item` line applied to the parent on top of the stack (lines 37-74). */
  function ItemEffect(st: Stack, body: string): (r: Stack)
    requires ValidStack(st) && StartsWith(body, '-')
    ensures ValidStack(r)
  {
    SetTop(st, ApplyItem(Top(st).node, ItemText(body)))
  }

  /** A line whose first colon is at `c`, applied to the parent on top of the
      stack (lines 76-150): ignored under a list; with an empty value it opens
      a list or a map under the key, otherwise it stores the value. */
  function KeyEffect(st: Stack, line: string, c: nat, indent: nat, rest: seq<string>): (r: Stack)
    requires ValidStack(st) && Top(st).indent < indent && c < |line|
    ensures ValidStack(r)
  {
    var top := Top(st);
    var key, value := Trim(line[..c]), Trim(line[c + 1..]);
    if !top.node.Map? then st
    else if value == [] then
      var child := if NextIsItem(rest) then Seq([]) else Map([]);
      PutWellFormed(top.node.entries, key, child);
      Push(SetTop(st, Map(Put(top.node.entries, key, child))), Frame(indent, key, child))
    else
      PutWellFormed(top.node.entries, key, ValueNode(value));
      SetTop(st, Map(Put(top.node.entries, key, ValueNode(value))))
  }

  /** A significant line applied to a stack whose top is already the parent
      (lines 35-150). */
  function LineEffect(st: Stack, line: string, indent: nat, rest: seq<string>): (r: Stack)
    requires ValidStack(st) && Top(st).indent < indent
    ensures ValidStack(r)
  {
    var body := TrimStart(line);
    if StartsWith(body, '-') then ItemEffect(st, body)
    else match IndexOfAny(line, {':'})
      case None => st
      case Some(c) => KeyEffect(st, line, c, indent, rest)
  }

  /** `rawLine.Length - rawLine.TrimStart().Length`: the leading white space. */
  function Indent(raw: string): nat {
    |raw| - |TrimStart(raw)|
  }

  /** One raw line, with the lines after it for the look-ahead (one pass of
      the loop at lines 19-151).  The stack invariants survive every line. */
  function Step(st: Stack, raw: string, rest: seq<string>): (r: Stack)
    requires ValidStack(st)
    ensures ValidStack(r)
  {
    var line := TrimEnd(raw);
    if IsSkipped(line) then st
    else LineEffect(PopTo(st, Indent(raw)), line, Indent(raw), rest)
  }

  /** The whole loop over the lines. */
  function Run(st: Stack, lines: seq<string>): (r: Stack)
    requires ValidStack(st)
    ensures ValidStack(r)
    decreases |lines|
  {
    if lines == [] then st else Run(Step(st, lines[0], lines[1..]), lines[1..])
  }

  /** The document a text parses to. */
  function ParseDocument(text: string): (r: Node)
    ensures r.Map? && WellFormed(r)
  {
    Collapse(Run(InitialStack, SplitLines(text)))
  }

  // ---------------------------------------------------------------------
  // The parser as the source writes it: a loop with an explicit stack
  // ---------------------------------------------------------------------

  /** The look-ahead loop of lines 87-101: skip blank and comment lines from
      `start` on and report whether the first other line begins with `-`. */
  method LookAhead(lines: seq<string>, start: nat) returns (isNextLineList: bool)
    requires start <= |lines|
    ensures isNextLineList == NextIsItem(lines[start..])
  {
    isNextLineList := false;
    var j := start;
    while j < |lines|
      invariant start <= j <= |lines|
      invariant NextIsItem(lines[start..]) == NextIsItem(lines[j..])
      invariant !isNextLineList
    {
      assert lines[j..][0] == lines[j] && lines[j..][1..] == lines[j + 1..];
      var nextLine := TrimStart(lines[j]);
      if IsNullOrWhiteSpace(nextLine) || StartsWith(nextLine, '#') {
        j := j + 1;
        continue;
      }
      isNextLineList := StartsWith(nextLine, '-');
      return;
    }
  }

  /** The popping loop of lines 30-33. */
  method PopToParent(stack: Stack, indent: nat) returns (st: Stack)
    requires ValidStack(stack)
    ensures st == PopTo(stack, indent)
  {
    st := stack;
    while Top(st).indent >= indent
      invariant ValidStack(st)
      invariant PopTo(st, indent) == PopTo(stack, indent)
      decreases |st|
    {
      st := Pop(st);
    }
  }

  /** The body of the loop once the stack has been popped to the line's parent
      (lines 35-150): a list item, a key line or an ignored line. */
  method ApplyLine(stack: Stack, line: string, indent: nat, lines: seq<string>, i: nat) returns (st: Stack)
    requires ValidStack(stack) && Top(stack).indent < indent && i < |lines|
    ensures st == LineEffect(stack, line, indent, lines[i + 1..])
  {
    var body := TrimStart(line);
    if StartsWith(body, '-') {
      var item := Trim(body[1..]);
      st := SetTop(stack, ApplyItem(Top(stack).node, item));
    } else {
      var colon := IndexOfAny(line, {':'});
      if colon.Some? {
        st := ApplyKeyLine(stack, line, colon.value, indent, lines, i);
      } else {
        st := stack;
      }
    }
  }

  /** A line whose first colon is at `c` (lines 76-150). */
  method ApplyKeyLine(stack: Stack, line: string, c: nat, indent: nat, lines: seq<string>, i: nat) returns (st: Stack)
    requires ValidStack(stack) && Top(stack).indent < indent && c < |line| && i < |lines|
    ensures st == KeyEffect(stack, line, c, indent, lines[i + 1..])
  {
    st := stack;
    var top := Top(st);
    var key := Trim(line[..c]);
    var valuePart := Trim(line[c + 1..]);
    if top.node.Map? {
      if valuePart == [] {
        var isNextLineList := LookAhead(lines, i + 1);
        var child := if isNextLineList then Seq([]) else Map([]);
        PutWellFormed(top.node.entries, key, child);
        st := Push(SetTop(st, Map(Put(top.node.entries, key, child))), Frame(indent, key, child));
      } else {
        PutWellFormed(top.node.entries, key, ValueNode(valuePart));
        st := SetTop(st, Map(Put(top.node.entries, key, ValueNode(valuePart))));
      }
    }
  }

  /** One pass of the loop at lines 19-151: skip a blank or comment line,
      otherwise pop to the line's parent and apply the line. */
  method ParseLine(stack: Stack, lines: seq<string>, i: nat) returns (st: Stack)
    requires ValidStack(stack) && i < |lines|
    ensures st == Step(stack, lines[i], lines[i + 1..])
  {
    var rawLine := lines[i];
    var line := TrimEnd(rawLine);
    if IsNullOrWhiteSpace(line) || StartsWith(TrimStart(line), '#') {
      return stack;
    }
    var indent := |rawLine| - |TrimStart(rawLine)|;
    assert indent == Indent(rawLine);
    st := PopToParent(stack, indent);
    st := ApplyLine(st, line, indent, lines, i);
  }

  /** `YamlParser.Parse`: always a map, lists hold scalars only, map keys are
      unique; never fails. */
  method Parse(yamlContent: string) returns (result: Node)
    ensures result == ParseDocument(yamlContent)
    ensures result.Map? && WellFormed(result)
  {
    var lines := SplitLines(yamlContent);
    var stack: Stack := InitialStack;
    for i := 0 to |lines|
      invariant ValidStack(stack)
      invariant Run(stack, lines[i..]) == Run(InitialStack, lines)
    {
      assert lines[i..][0] == lines[i] && lines[i..][1..] == lines[i + 1..];
      stack := ParseLine(stack, lines, i);
    }
    assert lines[|lines|..] == [];
    result := Collapse(stack);
  }

  // ---------------------------------------------------------------------
  // What one line does
  // ---------------------------------------------------------------------

  /** The main loop's skip test (on the line with its end trimmed) and the
      look-ahead's (on the line with its start trimmed) agree. */
  lemma SkipTestsAgree(raw: string)
    ensures IsSkipped(TrimEnd(raw)) <==> IsNullOrWhiteSpace(TrimStart(raw)) || StartsWith(TrimStart(raw), '#')
  {
    BlankAfterTrimEnd(raw);
    var t := TrimStart(raw);
    assert IsNullOrWhiteSpace(t) <==> t == [];
    if !IsNullOrWhiteSpace(raw) {
      FirstVisibleChar(raw);
    }
  }

  /** The look-ahead does not see a blank or comment line. */
  lemma {:induction false} NextIsItemIgnoresSkipped(pre: seq<string>, c: string, post: seq<string>)
    requires IsSkipped(TrimEnd(c))
    ensures NextIsItem(pre + [c] + post) == NextIsItem(pre + post)
    decreases |pre|
  {
    SkipTestsAgree(c);
    if pre == [] {
      assert pre + [c] + post == [c] + post && pre + post == post;
      assert ([c] + post)[0] == c && ([c] + post)[1..] == post;
    } else {
      assert (pre + [c] + post)[1..] == pre[1..] + [c] + post;
      assert (pre + post)[1..] == pre[1..] + post;
      NextIsItemIgnoresSkipped(pre[1..], c, post);
    }
  }

  /** A line sees the lines after it only through the look-ahead's answer. */
  lemma StepSeesOnlyLookAhead(st: Stack, raw: string, rest1: seq<string>, rest2: seq<string>)
    requires ValidStack(st) && NextIsItem(rest1) == NextIsItem(rest2)
    ensures Step(st, raw, rest1) == Step(st, raw, rest2)
  {
    if !IsSkipped(TrimEnd(raw)) {
      var line, p := TrimEnd(raw), PopTo(st, Indent(raw));
      StepUnfold(st, raw, rest1);
      StepUnfold(st, raw, rest2);
      LineSeesOnlyLookAhead(p, line, Indent(raw), rest1, rest2);
    }
  }

  lemma LineSeesOnlyLookAhead(st: Stack, line: string, indent: nat, rest1: seq<string>, rest2: seq<string>)
    requires ValidStack(st) && Top(st).indent < indent && NextIsItem(rest1) == NextIsItem(rest2)
    ensures LineEffect(st, line, indent, rest1) == LineEffect(st, line, indent, rest2)
  {
    var colon := IndexOfAny(line, {':'});
    if !StartsWith(TrimStart(line), '-') && colon.Some? {
      KeyLineEffect(st, line, colon.value, indent, rest1);
      KeyLineEffect(st, line, colon.value, indent, rest2);
    }
  }

  /** A blank or comment line, wherever it stands, changes nothing: not the
      stack, not the scoping of the lines after it, not any look-ahead. */
  lemma {:induction false} SkippedLineChangesNothing(st: Stack, pre: seq<string>, c: string, post: seq<string>)
    requires ValidStack(st)
    requires IsSkipped(TrimEnd(c))
    ensures Run(st, pre + [c] + post) == Run(st, pre + post)
    decreases |pre|
  {
    var whole, short := pre + [c] + post, pre + post;
    if pre == [] {
      assert whole[0] == c && whole[1..] == post && short == post;
      assert Run(st, whole) == Run(Step(st, c, post), post);
    } else {
      assert whole[0] == short[0] == pre[0];
      assert whole[1..] == pre[1..] + [c] + post;
      assert short[1..] == pre[1..] + post;
      NextIsItemIgnoresSkipped(pre[1..], c, post);
      StepSeesOnlyLookAhead(st, pre[0], whole[1..], short[1..]);
      var next := Step(st, pre[0], short[1..]);
      assert Run(st, whole) == Run(next, whole[1..]);
      assert Run(st, short) == Run(next, short[1..]);
      SkippedLineChangesNothing(next, pre[1..], c, post);
    }
  }

  /** A line that is not skipped first closes the scopes at or right of its
      column, then takes effect on the parent. */
  lemma StepUnfold(st: Stack, raw: string, rest: seq<string>)
    requires ValidStack(st) && !IsSkipped(TrimEnd(raw))
    ensures Step(st, raw, rest) == LineEffect(PopTo(st, Indent(raw)), TrimEnd(raw), Indent(raw), rest)
  {
  }

  /** A `- item` line: after popping to its parent, the item (the text after
      the `-`, trimmed) goes to the parent container as `ApplyItem` says. */
  lemma ItemLine(st: Stack, raw: string, rest: seq<string>)
    requires ValidStack(st)
    requires !IsSkipped(TrimEnd(raw)) && StartsWith(TrimStart(TrimEnd(raw)), '-')
    ensures var p := PopTo(st, Indent(raw));
      Step(st, raw, rest) == SetTop(p, ApplyItem(Top(p).node, Trim(TrimStart(TrimEnd(raw))[1..])))
  {
    var line, p := TrimEnd(raw), PopTo(st, Indent(raw));
    StepUnfold(st, raw, rest);
    assert LineEffect(p, line, Indent(raw), rest) == ItemEffect(p, TrimStart(line));
  }

  /** A `key:` line with nothing after the colon, while the parent is a map:
      the key (text before the first colon, trimmed) gets a new empty list if
      the next significant line is an item and a new empty map otherwise, and
      that container is pushed at the key line's column. */
  lemma EmptyValueOpensContainer(st: Stack, raw: string, rest: seq<string>, c: nat)
    requires ValidStack(st)
    requires var line := TrimEnd(raw);
      && !IsSkipped(line) && !StartsWith(TrimStart(line), '-')
      && c < |line| && line[c] == ':' && (forall i :: 0 <= i < c ==> line[i] != ':')
      && Trim(line[c + 1..]) == []
      && Top(PopTo(st, Indent(raw))).node.Map?
    ensures var p := PopTo(st, Indent(raw));
      var key := Trim(TrimEnd(raw)[..c]);
      var child := if NextIsItem(rest) then Seq([]) else Map([]);
      Step(st, raw, rest) == p[|p| - 1 := Frame(Top(p).indent, Top(p).key, Map(Put(Top(p).node.entries, key, child)))]
        + [Frame(Indent(raw), key, child)]
  {
    KeyLine(st, raw, rest, c);
  }

  /** A `key: value` line while the parent is a map stores an inline list or
      a scalar under the key, and the stack keeps its height. */
  lemma ValueLineStores(st: Stack, raw: string, rest: seq<string>, c: nat)
    requires ValidStack(st)
    requires var line := TrimEnd(raw);
      && !IsSkipped(line) && !StartsWith(TrimStart(line), '-')
      && c < |line| && line[c] == ':' && (forall i :: 0 <= i < c ==> line[i] != ':')
      && Trim(line[c + 1..]) != []
      && Top(PopTo(st, Indent(raw))).node.Map?
    ensures var p := PopTo(st, Indent(raw));
      var line := TrimEnd(raw);
      Step(st, raw, rest) == p[|p| - 1 := Frame(Top(p).indent, Top(p).key,
        Map(Put(Top(p).node.entries, Trim(line[..c]), ValueNode(Trim(line[c + 1..])))))]
  {
    var line, p := TrimEnd(raw), PopTo(st, Indent(raw));
    KeyLine(st, raw, rest, c);
    KeyValueEffect(p, line, c, Indent(raw), rest);
  }

  /** A line with no leading `-` whose first colon is at `c` takes effect as a key line. */
  lemma KeyLine(st: Stack, raw: string, rest: seq<string>, c: nat)
    requires ValidStack(st)
    requires var line := TrimEnd(raw);
      && !IsSkipped(line) && !StartsWith(TrimStart(line), '-')
      && c < |line| && line[c] == ':' && (forall i :: 0 <= i < c ==> line[i] != ':')
    ensures Step(st, raw, rest) == KeyEffect(PopTo(st, Indent(raw)), TrimEnd(raw), c, Indent(raw), rest)
  {
    var line, p := TrimEnd(raw), PopTo(st, Indent(raw));
    assert IndexOfAny(line, {':'}) == Some(c) by {
      IndexOfAnyIs(line, {':'}, c);
    }
    StepUnfold(st, raw, rest);
    KeyLineEffect(p, line, c, Indent(raw), rest);
  }

  lemma KeyLineEffect(st: Stack, line: string, c: nat, indent: nat, rest: seq<string>)
    requires ValidStack(st) && Top(st).indent < indent && c < |line|
    requires !StartsWith(TrimStart(line), '-') && IndexOfAny(line, {':'}) == Some(c)
    ensures LineEffect(st, line, indent, rest) == KeyEffect(st, line, c, indent, rest)
  {
  }

  lemma KeyEmptyValueEffect(st: Stack, line: string, c: nat, indent: nat, rest: seq<string>)
    requires ValidStack(st) && Top(st).indent < indent && c < |line|
    requires Top(st).node.Map? && Trim(line[c + 1..]) == []
    ensures var key := Trim(line[..c]);
      var child := if NextIsItem(rest) then Seq([]) else Map([]);
      KeyEffect(st, line, c, indent, rest)
        == st[|st| - 1 := Frame(Top(st).indent, Top(st).key, Map(Put(Top(st).node.entries, key, child)))] + [Frame(indent, key, child)]
  {
  }

  lemma KeyValueEffect(st: Stack, line: string, c: nat, indent: nat, rest: seq<string>)
    requires ValidStack(st) && Top(st).indent < indent && c < |line|
    requires Top(st).node.Map? && Trim(line[c + 1..]) != []
    ensures KeyEffect(st, line, c, indent, rest) == st[|st| - 1 := Frame(Top(st).indent, Top(st).key,
      Map(Put(Top(st).node.entries, Trim(line[..c]), ValueNode(Trim(line[c + 1..])))))]
  {
  }

  /** A key line under a list, or a line with neither a leading `-` nor a
      colon, only closes scopes: the document is unchanged and parsing goes on. */
  lemma IgnoredLineKeepsTree(st: Stack, raw: string, rest: seq<string>)
    requires ValidStack(st)
    requires var line := TrimEnd(raw);
      && !IsSkipped(line) && !StartsWith(TrimStart(line), '-')
      && (':' !in line || !Top(PopTo(st, Indent(raw))).node.Map?)
    ensures Step(st, raw, rest) == PopTo(st, Indent(raw))
    ensures Collapse(Step(st, raw, rest)) == Collapse(st)
  {
    var line, p := TrimEnd(raw), PopTo(st, Indent(raw));
    StepUnfold(st, raw, rest);
    var colon := IndexOfAny(line, {':'});
    if colon.Some? {
      assert LineEffect(p, line, Indent(raw), rest) == KeyEffect(p, line, colon.value, Indent(raw), rest);
    }
    PopToKeepsTree(st, Indent(raw));
  }

  /** `key: []` stores the one-item list `[""]`, and so does any inline list
      made of brackets only: trimming the brackets leaves the empty string,
      which splits into one empty piece. */
  lemma EmptyInlineList(value: string)
    requires IsInlineList(value) && forall i :: 0 <= i < |value| ==> value[i] in {'[', ']'}
    ensures ValueNode(value) == Seq([Scalar("")])
  {
    var cs := {'[', ']'};
    assert InlinePieces(value) == [""] by {
      assert TrailingIn(value, cs) == |value|;
      assert TrimEndIn(value, cs) == "";
      assert TrimStartIn("", cs) == "";
      assert SplitOn("", ',') == [""];
    }
    assert Trim("") == "" by {
      assert TrimEnd("") == "";
    }
    assert InlineItems(value) == [Scalar("")];
  }

  // ---------------------------------------------------------------------
  // A whole document: a key and the list under it
  // ---------------------------------------------------------------------

  /** A name with no white space at either end and no colon, usable as a
      key at column 0. */
  predicate PlainKey(key: string) {
    && key != [] && ':' !in key && key[0] != '-' && key[0] != '#'
    && !IsWhiteSpace(key[0]) && !IsWhiteSpace(key[|key| - 1])
  }

  /** An item text with no white space at either end. */
  predicate PlainItem(a: string) {
    a != [] && !IsWhiteSpace(a[0]) && !IsWhiteSpace(a[|a| - 1])
  }

  /** `- a` at column 0 is a significant item line whose text is `a`. */
  lemma DashLine(a: string)
    requires PlainItem(a)
    ensures var line := "- " + a;
      && TrimEnd(line) == line && TrimStart(line) == line && Indent(line) == 0
      && !IsSkipped(line) && StartsWith(line, '-') && Trim(line[1..]) == a
  {
    var line := "- " + a;
    assert '-' !in WhiteSpace && ' ' in WhiteSpace;
    MarkerThenText('-', ' ', a, WhiteSpace);
    assert line == ['-', ' '] + a;
    assert !IsNullOrWhiteSpace(line) by {
      assert !IsWhiteSpace(line[0]);
    }
  }

  /** `key:` at column 0 is a significant line whose first colon ends the
      key and whose value is empty. */
  lemma KeyColonLine(key: string)
    requires PlainKey(key)
    ensures var line := key + ":";
      && |line| == |key| + 1 && line[|key|] == ':' && line[..|key|] == key && line[|key| + 1..] == []
      && (forall i :: 0 <= i < |key| ==> line[i] != ':')
      && TrimEnd(line) == line && TrimStart(line) == line && Indent(line) == 0
      && !IsSkipped(line) && !StartsWith(line, '-')
      && Trim(key) == key && Trim([]) == []
  {
    var line := key + ":";
    TrimNothing(line, WhiteSpace);
    TrimNothing(key, WhiteSpace);
    assert line[..|key|] == key && line[|key| + 1..] == [];
    assert !IsNullOrWhiteSpace(line) by {
      assert !IsWhiteSpace(line[0]);
    }
  }

  /** Storing a key in an empty map gives the one-entry map. */
  lemma PutIntoEmpty(k: string, v: Node)
    ensures Put([], k, v) == [(k, v)]
  {
  }

  /** A key with an empty value, followed by list items, stores an empty
      list under the key in the empty root and pushes a frame for that list
      at column 0. */
  lemma RootKeyOpensList(line: string, key: string, c: nat, rest: seq<string>)
    requires c < |line| && Trim(line[..c]) == key && Trim(line[c + 1..]) == [] && NextIsItem(rest)
    ensures ValidStack(InitialStack)
    ensures KeyEffect(InitialStack, line, c, 0, rest) == [Frame(-1, "", Map([(key, Seq([]))])), Frame(0, key, Seq([]))]
  {
    InitialStackValid();
    RootKeyEmptyValue(InitialStack, line, c, rest);
  }

  /** A key with an empty value on a stack holding only the empty root:
      the child is the only entry of the root and a frame for it is pushed
      at column 0. */
  lemma RootKeyEmptyValue(st: Stack, line: string, c: nat, rest: seq<string>)
    requires ValidStack(st) && |st| == 1 && st[0] == Frame(-1, "", Map([]))
    requires c < |line| && Trim(line[c + 1..]) == []
    ensures var key := Trim(line[..c]);
      var child := if NextIsItem(rest) then Seq([]) else Map([]);
      KeyEffect(st, line, c, 0, rest) == [Frame(-1, "", Map([(key, child)])), Frame(0, key, child)]
  {
    var key := Trim(line[..c]);
    var child := if NextIsItem(rest) then Seq([]) else Map([]);
    assert KeyEffect(st, line, c, 0, rest) == st[0 := Frame(-1, "", Map(Put([], key, child)))] + [Frame(0, key, child)] by {
      KeyEmptyValueEffect(st, line, c, 0, rest);
    }
    RootWithEntry(st, key, child);
  }

  /** Storing `child` under `key` in the empty root alone on the stack, then
      pushing its frame at column 0. */
  lemma RootWithEntry(st: Stack, key: string, child: Node)
    requires |st| == 1 && st[0] == Frame(-1, "", Map([]))
    ensures st[0 := Frame(-1, "", Map(Put([], key, child)))] + [Frame(0, key, child)]
      == [Frame(-1, "", Map([(key, child)])), Frame(0, key, child)]
  {
    PutIntoEmpty(key, child);
  }

  /** `key:` at column 0 followed by list items opens an empty list under
      `key` in the empty root. */
  lemma FirstKeyOpensList(key: string, rest: seq<string>)
    requires PlainKey(key) && NextIsItem(rest)
    ensures Step(InitialStack, key + ":", rest) == [Frame(-1, "", Map([(key, Seq([]))])), Frame(0, key, Seq([]))]
  {
    KeyColonLine(key);
    KeyColonOpensList(key + ":", key, rest);
  }

  /** The stack the parse starts from is valid. */
  lemma InitialStackValid()
    ensures ValidStack(InitialStack)
  {
    assert WellFormed(InitialStack[0].node);
  }

  /** `key:` at column 0 on the root stack is a key line split at its colon,
      with nothing popped. */
  lemma KeyColonStep(line: string, key: string, rest: seq<string>)
    requires |line| == |key| + 1 && line[|key|] == ':' && (forall i :: 0 <= i < |key| ==> line[i] != ':')
    requires TrimEnd(line) == line && TrimStart(line) == line && Indent(line) == 0
    requires !IsSkipped(line) && !StartsWith(line, '-')
    ensures ValidStack(InitialStack)
    ensures Step(InitialStack, line, rest) == KeyEffect(InitialStack, line, |key|, 0, rest)
  {
    InitialStackValid();
    var t := TrimEnd(line);
    assert t == line;
    assert !IsSkipped(t) && !StartsWith(TrimStart(t), '-');
    KeyLine(InitialStack, line, rest, |key|);
    assert PopTo(InitialStack, 0) == InitialStack;
  }

  /** The same, for a line given by the facts about it that the parse uses. */
  lemma KeyColonOpensList(line: string, key: string, rest: seq<string>)
    requires |line| == |key| + 1 && line[|key|] == ':' && (forall i :: 0 <= i < |key| ==> line[i] != ':')
    requires line[..|key|] == key && line[|key| + 1..] == []
    requires TrimEnd(line) == line && TrimStart(line) == line && Indent(line) == 0
    requires !IsSkipped(line) && !StartsWith(line, '-')
    requires Trim(key) == key && Trim([]) == [] && NextIsItem(rest)
    ensures ValidStack(InitialStack)
    ensures Step(InitialStack, line, rest) == [Frame(-1, "", Map([(key, Seq([]))])), Frame(0, key, Seq([]))]
  {
    var c := |key|;
    KeyColonStep(line, key, rest);
    assert Trim(line[..c]) == key && Trim(line[c + 1..]) == [] by {
      assert line[..c] == key && line[c + 1..] == [];
    }
    RootKeyOpensList(line, key, c, rest);
  }

  /** A `- a` line at column 0 appends `a` to the list under the root's one
      key, once the stack is popped to the root. */
  lemma ItemAtRoot(st: Stack, key: string, items: seq<Node>, a: string, rest: seq<string>)
    requires ValidStack(st) && PopTo(st, 0) == [Frame(-1, "", Map([(key, Seq(items))]))]
    requires PlainItem(a)
    ensures Step(st, "- " + a, rest) == [Frame(-1, "", Map([(key, Seq(items + [Scalar(a)]))]))]
  {
    DashLine(a);
    ItemLine(st, "- " + a, rest);
    var es := [(key, Seq(items))];
    assert FindKey(es, key) == Some(0);
    assert Put(es, key, Seq(items + [Scalar(a)])) == [(key, Seq(items + [Scalar(a)]))];
  }

  /** The loop over a line and the lines after it is one step, then the
      loop over the rest. */
  lemma RunFirst(st: Stack, l: string, rest: seq<string>)
    requires ValidStack(st)
    ensures Run(st, [l] + rest) == Run(Step(st, l, rest), rest)
  {
    assert ([l] + rest)[1..] == rest;
  }

  /** A `- ` line at column 0 closes the list frame opened by `key:`. */
  lemma CloseListFrame(key: string, items: seq<Node>)
    requires ValidStack([Frame(-1, "", Map([(key, Seq(items))])), Frame(0, key, Seq(items))])
    ensures PopTo([Frame(-1, "", Map([(key, Seq(items))])), Frame(0, key, Seq(items))], 0)
      == [Frame(-1, "", Map([(key, Seq(items))]))]
  {
    var es := [(key, Seq(items))];
    var st := [Frame(-1, "", Map(es)), Frame(0, key, Seq(items))];
    var r := Pop(st);
    assert r == [Frame(-1, "", Map(Put(es, key, Seq(items))))];
    assert Put(es, key, Seq(items)) == es by {
      assert FindKey(es, key) == Some(0);
    }
    assert PopTo(r, 0) == r;
  }

  /** The stacks the `key:` / list document passes through are valid. */
  lemma ListStacksValid(key: string, items: seq<Node>)
    requires ScalarsOnly(items)
    ensures ValidStack([Frame(-1, "", Map([(key, Seq(items))]))])
    ensures ValidStack([Frame(-1, "", Map([(key, Seq(items))])), Frame(0, key, Seq(items))])
  {
    assert WellFormed(Seq(items));
    assert WellFormed(Map([(key, Seq(items))]));
  }

  /** The loop over `key:` and a list item after it continues from the
      root holding the empty list, with the list's frame open. */
  lemma RunFirstKey(key: string, a: string, more: seq<string>)
    requires PlainKey(key) && PlainItem(a)
    ensures Run(InitialStack, [key + ":"] + (["- " + a] + more))
      == Run([Frame(-1, "", Map([(key, Seq([]))])), Frame(0, key, Seq([]))], ["- " + a] + more)
  {
    var rest := ["- " + a] + more;
    assert NextIsItem(rest) by {
      DashLine(a);
      assert rest[0] == "- " + a;
    }
    FirstKeyOpensList(key, rest);
    RunFirst(InitialStack, key + ":", rest);
  }

  /** The loop over `- a` and the lines after it continues from the root
      whose list has `a` added. */
  lemma RunItemAtRoot(st: Stack, key: string, items: seq<Node>, a: string, rest: seq<string>)
    requires ValidStack(st) && PopTo(st, 0) == [Frame(-1, "", Map([(key, Seq(items))]))]
    requires ScalarsOnly(items) && PlainItem(a)
    ensures Run(st, ["- " + a] + rest) == Run([Frame(-1, "", Map([(key, Seq(items + [Scalar(a)]))]))], rest)
  {
    ItemAtRoot(st, key, items, a, rest);
    RunFirst(st, "- " + a, rest);
  }

  /** The same with the list's frame still open above the root. */
  lemma RunItemUnderKey(key: string, items: seq<Node>, a: string, rest: seq<string>)
    requires ScalarsOnly(items) && PlainItem(a)
    ensures Run([Frame(-1, "", Map([(key, Seq(items))])), Frame(0, key, Seq(items))], ["- " + a] + rest)
      == Run([Frame(-1, "", Map([(key, Seq(items + [Scalar(a)]))]))], rest)
  {
    ListStacksValid(key, items);
    CloseListFrame(key, items);
    RunItemAtRoot([Frame(-1, "", Map([(key, Seq(items))])), Frame(0, key, Seq(items))], key, items, a, rest);
  }

  /** The same with only the root on the stack. */
  lemma RunItemAfterItem(key: string, items: seq<Node>, a: string, rest: seq<string>)
    requires ScalarsOnly(items) && PlainItem(a)
    ensures Run([Frame(-1, "", Map([(key, Seq(items))]))], ["- " + a] + rest)
      == Run([Frame(-1, "", Map([(key, Seq(items + [Scalar(a)]))]))], rest)
  {
    var st := [Frame(-1, "", Map([(key, Seq(items))]))];
    ListStacksValid(key, items);
    assert PopTo(st, 0) == st;
    RunItemAtRoot(st, key, items, a, rest);
  }

  /** The same for the last line of the document. */
  lemma RunLastItem(key: string, items: seq<Node>, a: string)
    requires ScalarsOnly(items) && PlainItem(a)
    ensures Run([Frame(-1, "", Map([(key, Seq(items))]))], ["- " + a])
      == [Frame(-1, "", Map([(key, Seq(items + [Scalar(a)]))]))]
  {
    assert ["- " + a] + [] == ["- " + a];
    RunItemAfterItem(key, items, a, []);
  }

  /** The three lines, one at a time, and the two items, one at a time. */
  lemma ThreeLinesTwoItems(x: string, y: string, z: string, a: string, b: string)
    ensures [x, y, z] == [x] + ([y] + [z])
    ensures [] + [Scalar(a)] + [Scalar(b)] == [Scalar(a), Scalar(b)]
  {
  }

  /** The loop over `key:` / `- a` / `- b`, one line at a time, ends with
      the root alone on the stack, holding the key with the list of the two
      items. */
  lemma RunKeyWithTwoItems(key: string, a: string, b: string)
    requires PlainKey(key) && PlainItem(a) && PlainItem(b)
    ensures Run(InitialStack, [key + ":"] + (["- " + a] + ["- " + b]))
      == [Frame(-1, "", Map([(key, Seq([] + [Scalar(a)] + [Scalar(b)]))]))]
  {
    RunKeyThenItem(key, a, ["- " + b]);
    RunLastItem(key, [] + [Scalar(a)], b);
  }

  /** `key:` and a first item `- a` leave the root alone on the stack,
      holding the key with the one-item list. */
  lemma RunKeyThenItem(key: string, a: string, more: seq<string>)
    requires PlainKey(key) && PlainItem(a)
    ensures Run(InitialStack, [key + ":"] + (["- " + a] + more))
      == Run([Frame(-1, "", Map([(key, Seq([] + [Scalar(a)]))]))], more)
  {
    RunFirstKey(key, a, more);
    RunItemUnderKey(key, [], a, more);
  }

  /** The document `key:` / `- a` / `- b` is one key holding the list of
      the two items, in order. */
  lemma KeyWithTwoItems(text: string, key: string, a: string, b: string)
    requires SplitLines(text) == [key + ":", "- " + a, "- " + b]
    requires PlainKey(key) && PlainItem(a) && PlainItem(b)
    ensures ParseDocument(text) == Map([(key, Seq([Scalar(a), Scalar(b)]))])
  {
    ThreeLinesTwoItems(key + ":", "- " + a, "- " + b, a, b);
    RunKeyWithTwoItems(key, a, b);
  }

  // ---------------------------------------------------------------------
  // The same list with its items indented under the key
  // ---------------------------------------------------------------------

  /** `  - a` is a significant line at column 2 whose text, after the
      leading white space, is the item line `- a`. */
  lemma IndentedDashLine(a: string)
    requires PlainItem(a)
    ensures var line := "  - " + a;
      && TrimEnd(line) == line && TrimStart(line) == "- " + a && Indent(line) == 2
      && !IsSkipped(line)
  {
    var d := "- " + a;
    DashLine(a);
    IndentedIsPadded(a);
    assert ' ' in WhiteSpace && '-' !in WhiteSpace;
    PaddedText("  ", d, WhiteSpace);
    assert !IsNullOrWhiteSpace("  " + d) by {
      assert ("  " + d)[2] == '-';
    }
  }

  lemma IndentedIsPadded(a: string)
    ensures "  - " + a == "  " + ("- " + a)
  {
  }

  /** The stack while the indented items are read: the root still holds
      the list it was given when `key:` was read, and the list's own frame
      at column 0 holds the items so far. */
  function ListFrame(key: string, stored: seq<Node>, items: seq<Node>): (r: Stack)
    requires ScalarsOnly(stored) && ScalarsOnly(items)
    ensures ValidStack(r)
  {
    assert WellFormed(Seq(stored)) && WellFormed(Seq(items));
    assert WellFormed(Map([(key, Seq(stored))]));
    [Frame(-1, "", Map([(key, Seq(stored))])), Frame(0, key, Seq(items))]
  }

  /** An item at column 2 stays in the open list frame: nothing is popped
      and the item is added to that frame's list (lines 29-33, 37-43). */
  lemma IndentedItemStep(key: string, stored: seq<Node>, items: seq<Node>, a: string, rest: seq<string>)
    requires ScalarsOnly(stored) && ScalarsOnly(items) && PlainItem(a)
    ensures Step(ListFrame(key, stored, items), "  - " + a, rest) == ListFrame(key, stored, items + [Scalar(a)])
  {
    var st := ListFrame(key, stored, items);
    IndentedItemApplies(st, a, rest);
    assert SetTop(st, ApplyItem(Top(st).node, a)) == ListFrame(key, stored, items + [Scalar(a)]) by {
      assert st[1 := Frame(0, key, Seq(items + [Scalar(a)]))] == ListFrame(key, stored, items + [Scalar(a)]);
    }
  }

  /** `  - a` on a stack whose top is at column 0 or left of it pops
      nothing and applies `a` to the top container. */
  lemma IndentedItemApplies(st: Stack, a: string, rest: seq<string>)
    requires ValidStack(st) && Top(st).indent < 2 && PlainItem(a)
    ensures Step(st, "  - " + a, rest) == SetTop(st, ApplyItem(Top(st).node, a))
  {
    IndentedDashLine(a);
    DashLine(a);
    assert PopTo(st, 2) == st;
    ItemLine(st, "  - " + a, rest);
  }

  /** The loop over an indented item and the lines after it. */
  lemma RunIndentedItem(key: string, stored: seq<Node>, items: seq<Node>, a: string, rest: seq<string>)
    requires ScalarsOnly(stored) && ScalarsOnly(items) && PlainItem(a)
    ensures Run(ListFrame(key, stored, items), ["  - " + a] + rest) == Run(ListFrame(key, stored, items + [Scalar(a)]), rest)
  {
    IndentedItemStep(key, stored, items, a, rest);
    RunFirst(ListFrame(key, stored, items), "  - " + a, rest);
  }

  /** `key:` followed by an indented item opens the empty list under the
      key and leaves its frame on the stack. */
  lemma RunKeyBeforeIndented(key: string, a: string, more: seq<string>)
    requires PlainKey(key) && PlainItem(a)
    ensures Run(InitialStack, [key + ":"] + (["  - " + a] + more)) == Run(ListFrame(key, [], []), ["  - " + a] + more)
  {
    var rest := ["  - " + a] + more;
    assert NextIsItem(rest) by {
      IndentedDashLine(a);
      assert rest[0] == "  - " + a;
    }
    FirstKeyOpensList(key, rest);
    RunFirst(InitialStack, key + ":", rest);
  }

  /** The loop over the last indented item of the document. */
  lemma RunLastIndentedItem(key: string, stored: seq<Node>, items: seq<Node>, a: string)
    requires ScalarsOnly(stored) && ScalarsOnly(items) && PlainItem(a)
    ensures Run(ListFrame(key, stored, items), ["  - " + a]) == ListFrame(key, stored, items + [Scalar(a)])
  {
    assert ["  - " + a] + [] == ["  - " + a];
    RunIndentedItem(key, stored, items, a, []);
  }

  /** The loop over two indented items adds both to the open list frame. */
  lemma RunTwoIndentedItems(key: string, a: string, b: string)
    requires PlainItem(a) && PlainItem(b)
    ensures Run(ListFrame(key, [], []), ["  - " + a] + ["  - " + b]) == ListFrame(key, [], [] + [Scalar(a)] + [Scalar(b)])
  {
    var one: seq<Node> := [] + [Scalar(a)];
    assert ScalarsOnly(one);
    RunIndentedItem(key, [], [], a, ["  - " + b]);
    RunLastIndentedItem(key, [], one, b);
  }

  /** The loop over `key:` / `  - a` / `  - b` ends with the list's frame
      still open, holding both items. */
  lemma RunKeyWithIndentedItems(key: string, a: string, b: string)
    requires PlainKey(key) && PlainItem(a) && PlainItem(b)
    ensures Run(InitialStack, [key + ":"] + (["  - " + a] + ["  - " + b])) == ListFrame(key, [], [] + [Scalar(a)] + [Scalar(b)])
  {
    RunKeyBeforeIndented(key, a, ["  - " + b]);
    RunTwoIndentedItems(key, a, b);
  }

  /** Reading the document off the stack writes the open list back under
      its key, replacing the empty list stored when `key:` was read. */
  lemma CollapseListFrame(key: string, stored: seq<Node>, items: seq<Node>)
    requires ScalarsOnly(stored) && ScalarsOnly(items)
    ensures Collapse(ListFrame(key, stored, items)) == Map([(key, Seq(items))])
  {
    var st := ListFrame(key, stored, items);
    var es := [(key, Seq(stored))];
    assert FindKey(es, key) == Some(0);
    assert Put(es, key, Seq(items)) == [(key, Seq(items))];
    assert st[..0] + [Frame(-1, "", Map(Put(es, key, Seq(items))))] == [Frame(-1, "", Map([(key, Seq(items))]))];
  }

  /** The same for the stack the two-item document ends with. */
  lemma CollapseTwoItems(key: string, a: string, b: string)
    ensures Collapse(ListFrame(key, [], [] + [Scalar(a)] + [Scalar(b)])) == Map([(key, Seq([] + [Scalar(a)] + [Scalar(b)]))])
  {
    CollapseListFrame(key, [], [] + [Scalar(a)] + [Scalar(b)]);
  }

  /** The loop over the three lines, then the document read off the stack:
      the key holding the two items. */
  lemma ParseKeyWithIndentedItems(key: string, a: string, b: string)
    requires PlainKey(key) && PlainItem(a) && PlainItem(b)
    ensures Collapse(Run(InitialStack, [key + ":"] + (["  - " + a] + ["  - " + b])))
      == Map([(key, Seq([] + [Scalar(a)] + [Scalar(b)]))])
  {
    RunKeyWithIndentedItems(key, a, b);
    CollapseTwoItems(key, a, b);
  }

  /** The document `key:` / `  - a` / `  - b`, items indented under the key,
      is the same one key holding the list of the two items, in order. */
  lemma KeyWithTwoIndentedItems(text: string, key: string, a: string, b: string)
    requires SplitLines(text) == [key + ":", "  - " + a, "  - " + b]
    requires PlainKey(key) && PlainItem(a) && PlainItem(b)
    ensures ParseDocument(text) == Map([(key, Seq([Scalar(a), Scalar(b)]))])
  {
    ThreeLinesTwoItems(key + ":", "  - " + a, "  - " + b, a, b);
    ParseKeyWithIndentedItems(key, a, b);
  }
}
