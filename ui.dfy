/** The editor helpers of `ui.js`: the line-number gutter, the scan that
    finds where a table definition ends, the line range it covers, the
    marking of those lines in the highlight overlay, and `escapeRegex`. */
module Editor {
  import opened Wrappers
  import opened Text

  // ---------------------------------------------------------------------
  // Lines
  // ---------------------------------------------------------------------

  /** `split('\n')` yields one more piece than there are newlines. */
  lemma {:induction false} SplitCount(s: string, sep: char)
    ensures |Split(s, sep)| == CountChar(s, sep) + 1
    decreases |s|
  {
    match IndexOf(s, sep)
    case None =>
    case Some(k) =>
      var a, b := s[..k], s[k + 1..];
      assert s == a + [sep] + b;
      CountCharConcat(a + [sep], b, sep);
      CountCharConcat(a, [sep], sep);
      SplitCount(b, sep);
  }

  /** Joining pieces free of the separator and splitting again gives the
      pieces back. */
  lemma {:induction false} SplitJoin(parts: seq<string>, sep: char)
    requires |parts| > 0
    requires forall i :: 0 <= i < |parts| ==> sep !in parts[i]
    ensures Split(Join(parts, [sep]), sep) == parts
  {
    if |parts| == 1 {
      SplitNoSep(parts[0], sep);
    } else {
      SplitJoin(parts[1..], sep);
      SplitConcat(parts[0], sep, Join(parts[1..], [sep]));
      assert parts == [parts[0]] + parts[1..];
    }
  }

  // ---------------------------------------------------------------------
  // The line-number gutter
  // ---------------------------------------------------------------------

  /** "1", "2", ..., up to `n`. */
  function Numbers(n: nat): seq<string> {
    seq(n, i requires 0 <= i < n => NatToString(i + 1))
  }

  /** The gutter text of `updateLineNumbers`: one number per line of the
      editor text, joined by newlines. */
  function LineNumberText(text: string): string {
    Join(Numbers(|Split(text, '\n')|), "\n")
  }

  /** The gutter has one line per newline of the text plus one, and line
      `i` of it reads as the number `i + 1`. */
  lemma GutterLines(text: string)
    ensures var g := Split(LineNumberText(text), '\n');
            |g| == CountChar(text, '\n') + 1
            && forall i :: 0 <= i < |g| ==>
                 (forall j :: 0 <= j < |g[i]| ==> IsDigit(g[i][j])) && DigitsValue(g[i]) == i + 1
  {
    var n := |Split(text, '\n')|;
    SplitCount(text, '\n');
    var nums := Numbers(n);
    forall i | 0 <= i < n
      ensures '\n' !in nums[i]
      ensures DigitsValue(nums[i]) == i + 1
    {
      NatToStringValue(i + 1);
      assert forall j :: 0 <= j < |nums[i]| ==> IsDigit(nums[i][j]);
    }
    SplitJoin(nums, '\n');
  }

  // ---------------------------------------------------------------------
  // Where a table definition ends
  // ---------------------------------------------------------------------

  /** Opening braces minus closing braces. */
  function Balance(s: string): int {
    CountChar(s, '{') - CountChar(s, '}')
  }

  /** Position `k` holds a `}` that brings the depth counted from `start`
      back to zero after some `{` was seen. */
  predicate Closes(text: string, start: nat, k: nat) {
    start <= k < |text| && text[k] == '}' && '{' in text[start..k] && Balance(text[start..k + 1]) == 0
  }

  /** The first closing position at or after `k`. */
  function FirstClose(text: string, start: nat, k: nat): (r: Option<nat>)
    requires start <= k
    ensures r.Some? ==> k <= r.value && Closes(text, start, r.value)
    ensures r.Some? ==> forall j :: k <= j < r.value ==> !Closes(text, start, j)
    ensures r.None? ==> forall j :: k <= j < |text| ==> !Closes(text, start, j)
    decreases |text| - k
  {
    if k >= |text| then None
    else if Closes(text, start, k) then Some(k)
    else FirstClose(text, start, k + 1)
  }

  /** `endIdx` of `scrollToTableInEditor`: one past the first closing
      position, or the start when there is none. */
  function ScanEnd(text: string, start: nat): nat {
    match FirstClose(text, start, start)
    case Some(k) => k + 1
    case None => start
  }

  lemma BalanceSnoc(text: string, start: nat, i: nat)
    requires start <= i < |text|
    ensures Balance(text[start..i + 1]) ==
              Balance(text[start..i]) + (if text[i] == '{' then 1 else if text[i] == '}' then -1 else 0)
    ensures ('{' in text[start..i + 1]) <==> ('{' in text[start..i] || text[i] == '{')
  {
    assert text[start..i + 1] == text[start..i] + [text[i]];
    CountCharConcat(text[start..i], [text[i]], '{');
    CountCharConcat(text[start..i], [text[i]], '}');
  }

  /** The brace-matching loop. */
  method BraceScan(text: string, startIdx: nat) returns (endIdx: nat)
    requires startIdx <= |text|
    ensures endIdx == ScanEnd(text, startIdx)
    ensures endIdx == startIdx || Closes(text, startIdx, endIdx - 1)
  {
    var braceDepth := 0;
    endIdx := startIdx;
    var foundOpen := false;
    var i := startIdx;
    while i < |text|
      invariant startIdx <= i <= |text|
      invariant braceDepth == Balance(text[startIdx..i])
      invariant foundOpen == ('{' in text[startIdx..i])
      invariant FirstClose(text, startIdx, i) == FirstClose(text, startIdx, startIdx)
      invariant endIdx == startIdx
      decreases |text| - i
    {
      BalanceSnoc(text, startIdx, i);
      if text[i] == '{' {
        braceDepth := braceDepth + 1;
        foundOpen := true;
      } else if text[i] == '}' {
        braceDepth := braceDepth - 1;
        if foundOpen && braceDepth == 0 {
          assert Closes(text, startIdx, i);
          endIdx := i + 1;
          break;
        }
      }
      i := i + 1;
    }
  }

  // ---------------------------------------------------------------------
  // The line range
  // ---------------------------------------------------------------------

  /** `startLine`: the pieces of the text before the table, less one. */
  function StartLine(text: string, startIdx: nat): nat
    requires startIdx <= |text|
  {
    |Split(text[..startIdx], '\n')| - 1
  }

  /** `endLine`: the start line plus the pieces of the table text, less one. */
  function EndLine(text: string, startIdx: nat, endIdx: nat): nat
    requires startIdx <= endIdx <= |text|
  {
    StartLine(text, startIdx) + |Split(text[startIdx..endIdx], '\n')| - 1
  }

  /** The range runs from the line holding `startIdx` to the line holding
      the last character of the table: each bound counts the newlines
      before it. */
  lemma {:induction false} LineRangeCounts(text: string, startIdx: nat, endIdx: nat)
    requires startIdx <= endIdx <= |text|
    ensures StartLine(text, startIdx) == CountChar(text[..startIdx], '\n')
    ensures EndLine(text, startIdx, endIdx) == CountChar(text[..endIdx], '\n')
  {
    SplitCount(text[..startIdx], '\n');
    SplitCount(text[startIdx..endIdx], '\n');
    PrefixCount(text, startIdx, endIdx);
  }

  lemma PrefixCount(text: string, i: nat, j: nat)
    requires i <= j <= |text|
    ensures CountChar(text[..j], '\n') == CountChar(text[..i], '\n') + CountChar(text[i..j], '\n')
  {
    var upTo := text[..j];
    assert upTo[..i] == text[..i] && upTo[i..] == text[i..j];
    assert upTo == upTo[..i] + upTo[i..];
    CountCharConcat(upTo[..i], upTo[i..], '\n');
  }

  // ---------------------------------------------------------------------
  // Marking the lines
  // ---------------------------------------------------------------------

  const HighlightOpen := "<span class=\"editor-line-highlight\">"
  const HighlightClose := "</span>"

  function Wrapped(line: string): (r: string)
    ensures '\n' in r <==> '\n' in line
  {
    assert '\n' !in HighlightOpen && '\n' !in HighlightClose;
    HighlightOpen + line + HighlightClose
  }

  /** The loop of `applyEditorHighlightRange`: wraps each line from
      `startLine` to `endLine`, stopping at the last line. */
  method WrapRange(lines: seq<string>, startLine: nat, endLine: int) returns (r: seq<string>)
    ensures |r| == |lines|
    ensures forall i :: 0 <= i < |lines| ==>
              r[i] == if startLine <= i <= endLine then Wrapped(lines[i]) else lines[i]
  {
    r := lines;
    var i := startLine;
    while i <= endLine && i < |r|
      invariant |r| == |lines|
      invariant startLine <= i && (i == startLine || i <= endLine + 1)
      invariant forall k :: 0 <= k < |lines| ==>
                  r[k] == if startLine <= k < i then Wrapped(lines[k]) else lines[k]
      decreases |r| - i
    {
      r := r[i := Wrapped(r[i])];
      i := i + 1;
    }
  }

  /** `applyEditorHighlightRange` on the overlay markup `html`: line for
      line the new markup is the old, with exactly the lines of the range
      wrapped. */
  method ApplyHighlightRange(html: string, startLine: nat, endLine: int) returns (r: string)
    ensures var lines := Split(html, '\n');
            var out := Split(r, '\n');
            |out| == |lines|
            && forall i :: 0 <= i < |lines| ==>
                 out[i] == if startLine <= i <= endLine then Wrapped(lines[i]) else lines[i]
  {
    var lines := Split(html, '\n');
    var marked := WrapRange(lines, startLine, endLine);
    assert forall i :: 0 <= i < |marked| ==> '\n' !in marked[i];
    SplitJoin(marked, '\n');
    r := Join(marked, "\n");
  }

  /** The line marking of `scrollToTableInEditor`, once the definition has
      been found at `startIdx`: the lines from the one holding the
      definition to the one holding its closing brace are wrapped, and on
      an unclosed definition only its first line. */
  method MarkTable(text: string, html: string, startIdx: nat) returns (r: string)
    requires startIdx <= |text|
    ensures var first := CountChar(text[..startIdx], '\n');
            var last := CountChar(text[..ScanEnd(text, startIdx)], '\n');
            var lines := Split(html, '\n');
            var out := Split(r, '\n');
            |out| == |lines|
            && forall i :: 0 <= i < |lines| ==>
                 out[i] == if first <= i <= last then Wrapped(lines[i]) else lines[i]
  {
    var endIdx := BraceScan(text, startIdx);
    LineRangeCounts(text, startIdx, endIdx);
    r := ApplyHighlightRange(html, StartLine(text, startIdx), EndLine(text, startIdx, endIdx));
  }

  // ---------------------------------------------------------------------
  // escapeRegex
  // ---------------------------------------------------------------------

  /** The characters `escapeRegex` escapes. */
  predicate IsRegexMeta(c: char) {
    c in ".*+?^${}()|[]\\"
  }

  /** `escapeRegex`: a backslash before every metacharacter. */
  function EscapeRegex(s: string): (r: string)
    ensures |r| >= |s|
  {
    if |s| == 0 then ""
    else (if IsRegexMeta(s[0]) then ['\\', s[0]] else [s[0]]) + EscapeRegex(s[1..])
  }

  /** A pattern whose every metacharacter is escaped: it matches one fixed
      text. */
  predicate Literal(p: string)
    decreases |p|
  {
    |p| == 0
    || (p[0] == '\\' && |p| >= 2 && Literal(p[2..]))
    || (!IsRegexMeta(p[0]) && Literal(p[1..]))
  }

  /** The text a literal pattern matches. */
  function Matched(p: string): string
    requires Literal(p)
    decreases |p|
  {
    if |p| == 0 then ""
    else if p[0] == '\\' && |p| >= 2 && Literal(p[2..]) then [p[1]] + Matched(p[2..])
    else [p[0]] + Matched(p[1..])
  }

  /** The escaped name is a literal pattern that matches exactly the name. */
  lemma {:induction false} EscapeRegexIsLiteral(s: string)
    ensures Literal(EscapeRegex(s)) && Matched(EscapeRegex(s)) == s
  {
    if |s| > 0 {
      EscapeRegexIsLiteral(s[1..]);
      var rest := EscapeRegex(s[1..]);
      var r := EscapeRegex(s);
      if IsRegexMeta(s[0]) {
        assert r[2..] == rest;
      } else {
        assert r[1..] == rest;
        assert s[0] != '\\';
      }
      assert s == [s[0]] + s[1..];
    }
  }

  /** A name without metacharacters, such as a word, is left as it is. */
  lemma {:induction false} EscapeRegexPlain(s: string)
    requires forall i :: 0 <= i < |s| ==> !IsRegexMeta(s[i])
    ensures EscapeRegex(s) == s
  {
    if |s| > 0 {
      EscapeRegexPlain(s[1..]);
      assert s == [s[0]] + s[1..];
    }
  }
}
