/**
 * Formatting of the diagnostic messages a transformation returns: a tree of
 * output lines, each with its own text and an ordered list of child lines,
 * serialised into one string. A child's full text is placed on a new line
 * after its parent's text, with a leading tab.
 */
module OutputFormatting {
  import opened TextReplace

  datatype AppOutputLine = AppOutputLine(text: string, childLines: seq<AppOutputLine>)

  /**
   * The indentation helper is written with verbatim strings. It looks for the
   * two characters backslash, n (not a newline character) and puts the four
   * characters backslash, n, backslash, t in their place (no tab character).
   */
  const EscapedNewline: string := "\\n"
  const IndentedEscapedNewline: string := "\\n\\t"

  const Header: string := "Transformation result messages:\n"

  /** True when no backslash in s is followed by an n. */
  predicate NoEscapedNewline(s: string) {
    forall i :: 0 <= i < |s| - 1 ==> !(s[i] == '\\' && s[i + 1] == 'n')
  }

  /** The number of positions where a backslash is followed by an n. */
  function EscapedNewlineCount(s: string): nat {
    if |s| < 2 then 0
    else (if s[0] == '\\' && s[1] == 'n' then 1 else 0) + EscapedNewlineCount(s[1..])
  }

  /** Undoes IndentTextLines: drops the leading tab and the backslash-t after each backslash-n. */
  function UnindentTextLines(t: string): string {
    Replace(if t != [] && t[0] == '\t' then t[1..] else t, IndentedEscapedNewline, EscapedNewline)
  }

  /**
   * A leading tab, and backslash-t after every backslash-n pair. The length
   * and the round trip are IndentTextLinesLength and IndentTextLinesRoundTrip.
   */
  function IndentTextLines(s: string): (r: string)
    ensures r != [] && r[0] == '\t'
  {
    "\t" + Replace(s, EscapedNewline, IndentedEscapedNewline)
  }

  /** The full text of a line: its own text, then each child on a new line, indented. */
  function FullText(line: AppOutputLine): string
    decreases line, 0
  {
    line.text + ChildrenText(line.childLines)
  }

  function ChildrenText(children: seq<AppOutputLine>): string
    decreases children
  {
    if children == [] then ""
    else
      var n := |children| - 1;
      ChildrenText(children[..n]) + ChildEntry(children[n])
  }

  /** What one child adds to its parent's full text: a newline and its own full text, indented. */
  function ChildEntry(child: AppOutputLine): string
    decreases child, 1
  {
    "\n" + IndentTextLines(FullText(child))
  }

  /** The header, then each top-level line's full text followed by a newline. */
  function ResultMessages(lines: seq<AppOutputLine>): string {
    Header + MessagesBody(lines)
  }

  function MessagesBody(lines: seq<AppOutputLine>): string {
    if lines == [] then ""
    else
      var n := |lines| - 1;
      MessagesBody(lines[..n]) + FullText(lines[n]) + "\n"
  }

  // ---- an independent description of the output: the texts in preorder ----

  /** The texts of a line and all its descendants, parent before children, children in order. */
  function Preorder(line: AppOutputLine): seq<string>
    decreases line
  {
    [line.text] + PreorderForest(line.childLines)
  }

  function PreorderForest(lines: seq<AppOutputLine>): seq<string>
    decreases lines
  {
    if lines == [] then []
    else
      var n := |lines| - 1;
      PreorderForest(lines[..n]) + Preorder(lines[n])
  }

  predicate NoEscapedNewlines(xs: seq<string>) {
    forall k :: 0 <= k < |xs| ==> NoEscapedNewline(xs[k])
  }

  /** Each string on a new line after a single tab. */
  function IndentedLines(xs: seq<string>): string {
    if xs == [] then ""
    else
      var n := |xs| - 1;
      IndentedLines(xs[..n]) + "\n\t" + xs[n]
  }

  /** Each top-level text, then every descendant's text on a new line after one tab, then a newline. */
  function Outline(lines: seq<AppOutputLine>): string {
    if lines == [] then ""
    else
      var n := |lines| - 1;
      Outline(lines[..n]) + lines[n].text + IndentedLines(PreorderForest(lines[n].childLines)) + "\n"
  }

  // ---- the loops of the source ----

  /** Builds the full text with += over the children, recursing into each child. */
  method GetAppoutputLineFullText(line: AppOutputLine) returns (s: string)
    ensures s == FullText(line)
    decreases line
  {
    s := line.text;
    for i := 0 to |line.childLines|
      invariant s == line.text + ChildrenText(line.childLines[..i])
    {
      var sChilds := GetAppoutputLineFullText(line.childLines[i]);
      ChildrenTextPrefix(line.childLines, i);
      s := s + "\n" + IndentTextLines(sChilds);
    }
    assert line.childLines[..|line.childLines|] == line.childLines;
  }

  /** One more child of the prefix adds a newline and that child's indented full text. */
  lemma ChildrenTextPrefix(children: seq<AppOutputLine>, i: nat)
    requires i < |children|
    ensures ChildrenText(children[..i + 1]) == ChildrenText(children[..i]) + ChildEntry(children[i])
  {
    assert children[..i + 1][..i] == children[..i];
  }

  /** Accumulates the header and every line's full text plus a newline. */
  method GetResultMessagesString(lines: seq<AppOutputLine>) returns (s1: string)
    ensures s1 == ResultMessages(lines)
  {
    s1 := Header;
    for i := 0 to |lines|
      invariant s1 == Header + MessagesBody(lines[..i])
    {
      var full := GetAppoutputLineFullText(lines[i]);
      s1 := s1 + full;
      s1 := s1 + "\n";
      assert lines[..i + 1][..i] == lines[..i];
    }
    assert lines[..|lines|] == lines;
  }

  // ---- properties of IndentTextLines ----

  lemma EscapedNewlineAtStart(s: string)
    requires |s| >= 2
    ensures (s[..2] == EscapedNewline) == (s[0] == '\\' && s[1] == 'n')
  {
  }

  lemma {:induction false} EscapeReplaceLength(s: string)
    ensures |Replace(s, EscapedNewline, IndentedEscapedNewline)| == |s| + 2 * EscapedNewlineCount(s)
    decreases |s|
  {
    if |s| >= 2 {
      EscapedNewlineAtStart(s);
      if s[..2] == EscapedNewline {
        EscapeReplaceLength(s[2..]);
        assert s[1..][1..] == s[2..];
        assert EscapedNewlineCount(s[1..]) == EscapedNewlineCount(s[2..]);
      } else {
        EscapeReplaceLength(s[1..]);
      }
    }
  }

  lemma {:induction false} EscapeReplaceRoundTrip(s: string)
    ensures Replace(Replace(s, EscapedNewline, IndentedEscapedNewline), IndentedEscapedNewline, EscapedNewline) == s
    decreases |s|
  {
    var e, i := EscapedNewline, IndentedEscapedNewline;
    if |s| >= 2 {
      EscapedNewlineAtStart(s);
      if s[..2] == e {
        EscapeReplaceRoundTrip(s[2..]);
        var t := Replace(s[2..], e, i);
        assert Replace(s, e, i) == i + t;
        ReplaceAtStart(t, i, e);
        assert s == e + s[2..];
      } else {
        EscapeReplaceRoundTrip(s[1..]);
        var t := Replace(s[1..], e, i);
        assert Replace(s, e, i) == [s[0]] + t;
        var u := [s[0]] + t;
        assert u[0] != '\\' || u[1] != 'n';
        if |u| >= 4 {
          assert u[..4][0] == u[0] && u[..4][1] == u[1];
        }
        ReplaceSkipsFirst(s[0], t, i, e);
        assert s == [s[0]] + s[1..];
      }
    }
  }

  /** The text grows by the leading tab and by two characters per backslash-n pair. */
  lemma IndentTextLinesLength(s: string)
    ensures |IndentTextLines(s)| == 1 + |s| + 2 * EscapedNewlineCount(s)
  {
    EscapeReplaceLength(s);
  }

  /** Indenting loses nothing: UnindentTextLines gives the text back. */
  lemma IndentTextLinesRoundTrip(s: string)
    ensures UnindentTextLines(IndentTextLines(s)) == s
  {
    EscapeReplaceRoundTrip(s);
    assert IndentTextLines(s)[1..] == Replace(s, EscapedNewline, IndentedEscapedNewline);
  }

  /** A text without a backslash-n pair only gains a leading tab (real newlines are left alone). */
  lemma IndentTextLinesWithoutEscapes(s: string)
    requires NoEscapedNewline(s)
    ensures IndentTextLines(s) == "\t" + s
  {
    forall k | 0 <= k < |s|
      ensures !OccursAt(s, EscapedNewline, k)
    {
      if k + 2 <= |s| {
        assert s[k..k + 2][0] == s[k] && s[k..k + 2][1] == s[k + 1];
      }
    }
    ReplaceAbsent(s, EscapedNewline, IndentedEscapedNewline);
  }

  /**
   * What is inserted: the text before the first backslash-n is copied, that
   * pair becomes backslash-n-backslash-t, and the rest is treated the same way.
   */
  lemma {:induction false} IndentTextLinesAtFirstEscape(a: string, b: string)
    requires NoEscapedNewline(a)
    ensures IndentTextLines(a + EscapedNewline + b)
         == "\t" + a + IndentedEscapedNewline + Replace(b, EscapedNewline, IndentedEscapedNewline)
  {
    ReplaceAfterPlainPrefix(a, b);
  }

  lemma {:induction false} ReplaceAfterPlainPrefix(a: string, b: string)
    requires NoEscapedNewline(a)
    ensures Replace(a + EscapedNewline + b, EscapedNewline, IndentedEscapedNewline)
         == a + IndentedEscapedNewline + Replace(b, EscapedNewline, IndentedEscapedNewline)
    decreases |a|
  {
    var e, i := EscapedNewline, IndentedEscapedNewline;
    if a == [] {
      assert a + e + b == e + b;
      ReplaceAtStart(b, e, i);
    } else {
      var rest := a[1..] + e + b;
      PlainHead(a, b);
      ReplaceSkipsFirst(a[0], rest, e, i);
      NoEscapedNewlineTail(a);
      ReplaceAfterPlainPrefix(a[1..], b);
    }
  }

  /** A backslash-n pair after a plain, non-empty text does not start at its first character. */
  lemma PlainHead(a: string, b: string)
    requires a != [] && NoEscapedNewline(a)
    ensures a + EscapedNewline + b == [a[0]] + (a[1..] + EscapedNewline + b)
    ensures ([a[0]] + (a[1..] + EscapedNewline + b))[..2] != EscapedNewline
  {
    var u := a + EscapedNewline + b;
    assert u[0] == a[0];
    assert u[1] == if |a| > 1 then a[1] else '\\';
    assert u[..2][0] == u[0] && u[..2][1] == u[1];
  }

  lemma NoEscapedNewlineTail(a: string)
    requires a != [] && NoEscapedNewline(a)
    ensures NoEscapedNewline(a[1..])
  {
    forall k | 0 <= k < |a[1..]| - 1
      ensures !(a[1..][k] == '\\' && a[1..][k + 1] == 'n')
    {
      assert a[1..][k] == a[k + 1] && a[1..][k + 1] == a[k + 2];
    }
  }

  /** A backslash-n written into a line's text is followed by backslash-t after indenting. */
  lemma EscapedNewlineIsIndented()
    ensures IndentTextLines("x\\ny") == "\tx\\n\\ty"
  {
    IndentTextLinesAtFirstEscape("x", "y");
    assert "x" + EscapedNewline + "y" == "x\\ny";
  }

  // ---- properties of the full text of a line ----

  /** The full text begins with the line's own text; a line without children is just its text. */
  lemma FullTextBeginsWithText(line: AppOutputLine)
    ensures |FullText(line)| >= |line.text| && FullText(line)[..|line.text|] == line.text
    ensures line.childLines == [] ==> FullText(line) == line.text
  {
  }

  /** The children's part of the full text is built child by child, in order. */
  lemma {:induction false} ChildrenTextConcat(a: seq<AppOutputLine>, b: seq<AppOutputLine>)
    ensures ChildrenText(a + b) == ChildrenText(a) + ChildrenText(b)
    decreases |b|
  {
    if b != [] {
      var n := |b| - 1;
      assert (a + b)[..|a| + n] == a + b[..n];
      assert (a + b)[|a| + n] == b[n];
      ChildrenTextConcat(a, b[..n]);
    } else {
      assert a + b == a;
    }
  }

  /** The first child follows the parent's text on a new line, indented, before the other children. */
  lemma FullTextFirstChild(text: string, child: AppOutputLine, rest: seq<AppOutputLine>)
    ensures FullText(AppOutputLine(text, [child] + rest))
         == text + "\n" + IndentTextLines(FullText(child)) + ChildrenText(rest)
  {
    ChildrenTextConcat([child], rest);
    assert [child][..0] == [];
  }

  lemma NoEscapedNewlineConcat(a: string, b: string)
    requires NoEscapedNewline(a) && NoEscapedNewline(b)
    requires a == [] || b == [] || !(a[|a| - 1] == '\\' && b[0] == 'n')
    ensures NoEscapedNewline(a + b)
  {
    forall k | 0 <= k < |a + b| - 1
      ensures !((a + b)[k] == '\\' && (a + b)[k + 1] == 'n')
    {
      if k + 1 < |a| {
        assert (a + b)[k] == a[k] && (a + b)[k + 1] == a[k + 1];
      } else if k + 1 == |a| {
        assert (a + b)[k] == a[|a| - 1] && (a + b)[k + 1] == b[0];
      } else {
        assert (a + b)[k] == b[k - |a|] && (a + b)[k + 1] == b[k + 1 - |a|];
      }
    }
  }

  lemma NoEscapedNewlinesConcat(a: seq<string>, b: seq<string>)
    ensures NoEscapedNewlines(a + b) <==> NoEscapedNewlines(a) && NoEscapedNewlines(b)
  {
    if NoEscapedNewlines(a + b) {
      forall k | 0 <= k < |a| ensures NoEscapedNewline(a[k]) { assert (a + b)[k] == a[k]; }
      forall k | 0 <= k < |b| ensures NoEscapedNewline(b[k]) { assert (a + b)[|a| + k] == b[k]; }
    }
  }

  lemma {:induction false} IndentedLinesConcat(a: seq<string>, b: seq<string>)
    ensures IndentedLines(a + b) == IndentedLines(a) + IndentedLines(b)
    decreases |b|
  {
    if b != [] {
      var n := |b| - 1;
      assert (a + b)[..|a| + n] == a + b[..n];
      assert (a + b)[|a| + n] == b[n];
      IndentedLinesConcat(a, b[..n]);
    } else {
      assert a + b == a;
    }
  }

  /** Lines written with IndentedLines create no backslash-n pair, and start with a newline. */
  lemma {:induction false} IndentedLinesPlain(xs: seq<string>)
    requires NoEscapedNewlines(xs)
    ensures NoEscapedNewline(IndentedLines(xs))
    ensures xs != [] ==> IndentedLines(xs)[0] == '\n'
    decreases |xs|
  {
    if xs != [] {
      var n := |xs| - 1;
      NoEscapedNewlinesConcat(xs[..n], [xs[n]]);
      assert xs == xs[..n] + [xs[n]];
      assert [xs[n]][0] == xs[n];
      IndentedLinesPlain(xs[..n]);
      NoEscapedNewlineConcat("\n\t", xs[n]);
      NoEscapedNewlineConcat(IndentedLines(xs[..n]), "\n\t" + xs[n]);
      assert IndentedLines(xs) == IndentedLines(xs[..n]) + ("\n\t" + xs[n]);
    }
  }

  /**
   * When no line text holds a backslash-n pair, the full text is the line's
   * text followed by the text of every descendant in preorder, each on a new
   * line after exactly one tab, whatever its depth.
   */
  lemma {:induction false} FullTextOutline(line: AppOutputLine)
    requires NoEscapedNewlines(Preorder(line))
    ensures FullText(line) == line.text + IndentedLines(PreorderForest(line.childLines))
    decreases line, 1
  {
    NoEscapedNewlinesConcat([line.text], PreorderForest(line.childLines));
    ForestOutline(line.childLines);
  }

  lemma {:induction false} ForestOutline(children: seq<AppOutputLine>)
    requires NoEscapedNewlines(PreorderForest(children))
    ensures ChildrenText(children) == IndentedLines(PreorderForest(children))
    decreases children, 0
  {
    if children != [] {
      var n := |children| - 1;
      var init, c := children[..n], children[n];
      NoEscapedNewlinesConcat(PreorderForest(init), Preorder(c));
      ForestOutline(init);
      FullTextOutline(c);
      ChildOutline(c);
      IndentedLinesConcat(PreorderForest(init), Preorder(c));
    }
  }

  /** A child's part of its parent's full text: a newline, a tab, and its own outline. */
  lemma ChildOutline(c: AppOutputLine)
    requires NoEscapedNewlines(Preorder(c))
    requires FullText(c) == c.text + IndentedLines(PreorderForest(c.childLines))
    ensures ChildEntry(c) == IndentedLines(Preorder(c))
  {
    var rest := PreorderForest(c.childLines);
    OutlinePlain(c.text, rest);
    IndentTextLinesWithoutEscapes(c.text + IndentedLines(rest));
    IndentedLinesCons(c.text, rest);
  }

  /** A text followed by indented lines, none holding a backslash-n pair, holds none either. */
  lemma OutlinePlain(text: string, rest: seq<string>)
    requires NoEscapedNewlines([text] + rest)
    ensures NoEscapedNewline(text + IndentedLines(rest))
  {
    NoEscapedNewlinesConcat([text], rest);
    assert [text][0] == text;
    IndentedLinesPlain(rest);
    NoEscapedNewlineConcat(text, IndentedLines(rest));
  }

  lemma IndentedLinesCons(x: string, rest: seq<string>)
    ensures IndentedLines([x] + rest) == "\n\t" + x + IndentedLines(rest)
  {
    IndentedLinesConcat([x], rest);
    assert [x][..0] == [];
  }

  /**
   * Indentation looks for backslash-n, not for newline characters, so the
   * newline inside a child's full text gets no extra tab: a grandchild ends up
   * with the same single tab as its parent.
   */
  lemma GrandchildSharesChildIndent()
    ensures FullText(AppOutputLine("a", [AppOutputLine("b", [AppOutputLine("c", [])])])) == "a\n\tb\n\tc"
  {
    var leaf := AppOutputLine("c", []);
    var mid := AppOutputLine("b", [leaf]);
    assert IndentTextLines("c") == "\tc";
    assert [leaf][..0] == [];
    assert ChildrenText([leaf]) == ChildrenText([]) + ChildEntry(leaf);
    assert FullText(leaf) == "c";
    assert FullText(mid) == "b\n\tc";
    IndentTextLinesWithoutEscapes("b\n\tc");
    assert [mid][..0] == [];
  }

  // ---- properties of the result message string ----

  /** The string starts with the header; without lines it is only the header. */
  lemma ResultMessagesStartsWithHeader(lines: seq<AppOutputLine>)
    ensures |ResultMessages(lines)| >= |Header| && ResultMessages(lines)[..|Header|] == Header
    ensures lines == [] ==> ResultMessages(lines) == Header
  {
  }

  /** Each top-level line contributes its full text and a newline, in order. */
  lemma {:induction false} MessagesBodyConcat(a: seq<AppOutputLine>, b: seq<AppOutputLine>)
    ensures MessagesBody(a + b) == MessagesBody(a) + MessagesBody(b)
    decreases |b|
  {
    if b != [] {
      var n := |b| - 1;
      assert (a + b)[..|a| + n] == a + b[..n];
      assert (a + b)[|a| + n] == b[n];
      MessagesBodyConcat(a, b[..n]);
    } else {
      assert a + b == a;
    }
  }

  lemma {:induction false} MessagesBodyOutline(lines: seq<AppOutputLine>)
    requires NoEscapedNewlines(PreorderForest(lines))
    ensures MessagesBody(lines) == Outline(lines)
    decreases |lines|
  {
    if lines != [] {
      var n := |lines| - 1;
      NoEscapedNewlinesConcat(PreorderForest(lines[..n]), Preorder(lines[n]));
      MessagesBodyOutline(lines[..n]);
      FullTextOutline(lines[n]);
    }
  }

  /**
   * When no line text holds a backslash-n pair, the result string is the header
   * followed by, for each top-level line in order, its text, every descendant's
   * text on a new line after one tab, and a newline.
   */
  lemma ResultMessagesOutline(lines: seq<AppOutputLine>)
    requires NoEscapedNewlines(PreorderForest(lines))
    ensures ResultMessages(lines) == Header + Outline(lines)
  {
    MessagesBodyOutline(lines);
  }
}
