/** Reading back whole diagram texts: a written column line gives its column,
    a written table body gives its columns, and the text `generate` writes
    for writable tables parses to those tables at the origin, with one
    relationship per reference. */
module ReadBack {
  import opened Wrappers
  import opened Text
  import opened Schema
  import opened Parser
  import opened Generator
  import opened RoundTrip

  // ---------------------------------------------------------------------
  // Column lines
  // ---------------------------------------------------------------------

  /** The bracketed list stays on its line and inside the table body. */
  lemma RestFacts(c: Column)
    requires ColumnWritable(c)
    ensures LineSafe(RestText(c))
    ensures RestText(c) != "" ==> RestText(c)[0] == '[' && RestText(c)[|RestText(c)| - 1] == ']'
  {
    var cs := ColumnConstraints(c);
    if |cs| > 0 {
      ItemsGood(c);
      JoinItemSafe(cs);
    }
  }

  /** A readable type starts with a word character and ends with one or
      with its closing parenthesis. */
  lemma TypeEdges(t: string)
    requires TypeWritable(t)
    ensures |t| > 0 && IsWordChar(t[0]) && !IsSpace(t[|t| - 1])
  {
    SkipWordChars(t, 0);
  }

  lemma LastOf(a: string, b: string)
    requires |b| > 0
    ensures |a + b| > 0 && (a + b)[|a + b| - 1] == b[|b| - 1]
  {
  }

  /** A written column line holds no line break, `/` or `}`, and nothing
      for `trim` to remove. */
  lemma LineFacts(c: Column)
    requires ColumnWritable(c)
    ensures LineSafe(CoreLine(c)) && Trimmed(CoreLine(c))
  {
    var rest := RestText(c);
    RestFacts(c);
    SuffixTail(c);
    WordSafe(c.name);
    TypeEdges(c.typeName);
    LineEdges(c.name, c.typeName, rest, CoreLine(c));
  }

  lemma LineEdges(name: string, t: string, rest: string, line: string)
    requires Word(name) && |t| > 0 && !IsSpace(t[|t| - 1])
    requires LineSafe(name) && LineSafe(t) && LineSafe(rest)
    requires rest != "" ==> rest[|rest| - 1] == ']'
    requires line == name + " " + t + Tail(rest)
    ensures LineSafe(line) && Trimmed(line)
  {
    LineSafeConcat(name, t, rest, line);
    LineTrimmed(name, t, rest, line);
  }

  lemma LineSafeConcat(name: string, t: string, rest: string, line: string)
    requires LineSafe(name) && LineSafe(t) && LineSafe(rest)
    requires line == name + " " + t + Tail(rest)
    ensures LineSafe(line)
  {
  }

  lemma LineTrimmed(name: string, t: string, rest: string, line: string)
    requires Word(name) && |t| > 0 && !IsSpace(t[|t| - 1])
    requires rest != "" ==> rest[|rest| - 1] == ']'
    requires line == name + " " + t + Tail(rest)
    ensures Trimmed(line)
  {
    var head := name + " " + t;
    FirstOf(name, " ");
    FirstOf(name + " ", t);
    FirstOf(head, Tail(rest));
    assert IsWordChar(name[0]);
    LastOf(name + " ", t);
    if rest == "" {
      assert line == head;
    } else {
      LastOf(" ", rest);
      LastOf(head, " " + rest);
    }
  }

  lemma FirstOf(a: string, b: string)
    requires |a| > 0
    ensures (a + b)[0] == a[0]
  {
  }

  /** A line whose first word is not `indexes…` and ends at a space is not
      an `Indexes` header. */
  lemma NotIndexesHeader(line: string, name: string)
    requires Word(name) && !StartsWith(Lower(name), "indexes")
    requires |name| < |line| && line[..|name|] == name && line[|name|] == ' '
    ensures !IsIndexesHeader(line)
  {
    if |name| >= 7 {
      var a, b := Lower(line), Lower(name);
      forall k | 0 <= k < 7
        ensures a[k] == b[k]
      {
        assert line[k] == line[..|name|][k] == name[k];
      }
      SamePrefixNotIndexes(a, b);
    } else {
      SpaceBeforeSeven(Lower(line), |name|);
    }
  }

  lemma SamePrefixNotIndexes(a: string, b: string)
    requires |a| >= 7 && |b| >= 7 && !StartsWith(b, "indexes")
    requires forall k :: 0 <= k < 7 ==> a[k] == b[k]
    ensures !StartsWith(a, "indexes")
  {
    assert a[..7] == b[..7];
  }

  lemma SpaceBeforeSeven(low: string, k: nat)
    requires k < 7 && k < |low| && low[k] == ' '
    ensures !StartsWith(low, "indexes")
  {
    if |low| >= 7 {
      assert low[..7][k] == ' ';
      assert ' ' !in "indexes";
    }
  }

  /** Nor is it a note line: its fifth character, or the space before it,
      is not the one of `note:`. */
  lemma NotNoteLine(line: string, name: string)
    requires Word(name)
    requires |name| < |line| && line[..|name|] == name && line[|name|] == ' '
    ensures NoteText(line).None?
  {
    if |line| >= 5 {
      if |name| >= 5 {
        assert line[4] == name[4];
        assert IsWordChar(name[4]);
        assert Lower(line[..5])[4] != ':';
      } else {
        assert Lower(line[..5])[|name|] == ' ';
        assert ' ' !in "note:";
      }
    }
  }

  /** A line that the header, note and index patterns pass over and the
      column pattern matches adds that column. */
  lemma ParseColumnLine(table: string, acc: TableAcc, line: string, ct: ColumnText)
    requires !IsIndexesHeader(line) && NoteText(line).None? && '}' !in line
    requires MatchColumn(line) == Some(ct)
    ensures ParseLine(table, acc, line)
            == acc.(columns := acc.columns + [ColumnOf(ct)],
                    rels := acc.rels + (match RefRelationship(table, ct) case Some(r) => [r] case None => []))
  {
    assert IndexLine(line).None?;
  }

  /** The column the reader builds from the pieces of a written line. */
  lemma ColumnOfWritten(table: string, c: Column)
    requires ColumnWritable(c)
    ensures ColumnOf(ColumnText(c.name, c.typeName, RestText(c))) == RecoveredColumn(c)
    ensures RefRelationship(table, ColumnText(c.name, c.typeName, RestText(c)))
            == if HasRef(c) then Some(ColumnRelationship(table, RecoveredColumn(c))) else None
  {
    ConstraintsRoundTrip(c);
    RefTargetWords(c);
  }

  /** The reader takes a written column line back as the column it was
      written for, and as one relationship when the column has a reference. */
  lemma ColumnLineRead(table: string, acc: TableAcc, c: Column)
    requires ColumnWritable(c)
    ensures ParseLine(table, acc, CoreLine(c))
            == acc.(columns := acc.columns + [RecoveredColumn(c)],
                    rels := acc.rels + (if HasRef(c) then [ColumnRelationship(table, RecoveredColumn(c))] else []))
  {
    var rest := RestText(c);
    var line := CoreLine(c);
    SuffixTail(c);
    RestFacts(c);
    LineFacts(c);
    LineLayout(c.name, c.typeName, Tail(rest), line);
    LineHead(line, c.name, c.typeName, Tail(rest));
    NotIndexesHeader(line, c.name);
    NotNoteLine(line, c.name);
    MatchColumnText(c.name, c.typeName, rest);
    ParseColumnLine(table, acc, line, ColumnText(c.name, c.typeName, rest));
    ColumnOfWritten(table, c);
  }

  lemma LineHead(line: string, name: string, t: string, tail: string)
    requires Layout(line, name, t, tail)
    ensures |name| < |line| && line[..|name|] == name && line[|name|] == ' '
  {
  }

  // ---------------------------------------------------------------------
  // Table bodies
  // ---------------------------------------------------------------------

  predicate ColumnsWritable(cols: seq<Column>) {
    forall j :: 0 <= j < |cols| ==> ColumnWritable(cols[j])
  }

  /** The column lines of a body as the reader sees them, trimmed. */
  function CoreLines(cols: seq<Column>): seq<string>
    decreases |cols|
  {
    if |cols| == 0 then [] else [CoreLine(cols[0])] + CoreLines(cols[1..])
  }

  /** The note line of a body as the reader sees it, when there is a note. */
  function NoteLines(note: string): seq<string> {
    if note != "" then ["note: '" + note + "'"] else []
  }

  /** The body the table pattern captures: the line break after `{`, the
      column lines and the note block. */
  function BodyText(t: Table): string {
    "\n" + ColumnsText(t.columns) + NoteBlock(t.note)
  }

  lemma ColumnLineParts(c: Column)
    ensures ColumnLine(c) == ("  " + CoreLine(c)) + ['\n']
  {
  }

  /** An indented line, its line break and what follows. */
  lemma PaddedLine(core: string, more: string, s: string)
    requires LineSafe(core) && Trimmed(core)
    requires s == ("  " + core) + ['\n'] + more
    ensures CleanLines(Split(s, '\n')) == [core] + CleanLines(Split(more, '\n'))
  {
    SplitConcat("  " + core, '\n', more);
    TrimLeadingSpaces("  ", core);
    var parts := Split(s, '\n');
    assert parts[1..] == Split(more, '\n');
  }

  /** A line break at the front gives an empty piece, which is dropped. */
  lemma LeadingBreak(more: string)
    ensures CleanLines(Split("\n" + more, '\n')) == CleanLines(Split(more, '\n'))
  {
    SplitConcat("", '\n', more);
    assert "" + ['\n'] + more == "\n" + more;
    var parts := Split("\n" + more, '\n');
    assert parts[0] == "" && parts[1..] == Split(more, '\n');
  }

  /** Splitting the written column lines at their line breaks and trimming
      the pieces gives the lines without their indentation, followed by the
      pieces of whatever comes after them. */
  lemma {:induction false} ColumnsLines(cols: seq<Column>, more: string)
    requires ColumnsWritable(cols)
    ensures CleanLines(Split(ColumnsText(cols) + more, '\n')) == CoreLines(cols) + CleanLines(Split(more, '\n'))
    decreases |cols|
  {
    if |cols| == 0 {
      assert ColumnsText(cols) + more == more;
    } else {
      var c := cols[0];
      var after := ColumnsText(cols[1..]) + more;
      LineFacts(c);
      ColumnsLines(cols[1..], more);
      ColumnsTextCons(cols, more);
      PaddedLine(CoreLine(c), after, ColumnsText(cols) + more);
      ConsConcat(CoreLine(c), CoreLines(cols[1..]), CleanLines(Split(more, '\n')));
    }
  }

  lemma ColumnsTextCons(cols: seq<Column>, more: string)
    requires |cols| > 0
    ensures ColumnsText(cols) + more == ("  " + CoreLine(cols[0])) + ['\n'] + (ColumnsText(cols[1..]) + more)
  {
    var line := ColumnLine(cols[0]);
    var after := ColumnsText(cols[1..]);
    assert ColumnsText(cols) == line + after;
    ColumnLineParts(cols[0]);
    ConcatAssoc(line, after, more);
  }

  lemma ConcatAssoc<T>(a: seq<T>, b: seq<T>, c: seq<T>)
    ensures (a + b) + c == a + (b + c)
  {
  }

  lemma ConsConcat<T>(x: T, a: seq<T>, b: seq<T>)
    ensures [x] + (a + b) == ([x] + a) + b
  {
  }

  /** The written note block gives the note line and nothing else. */
  lemma NoteBlockLines(note: string)
    requires LineSafe(note)
    ensures CleanLines(Split(NoteBlock(note), '\n')) == NoteLines(note)
  {
    if note == "" {
      assert Split("", '\n') == [""];
      assert [""][1..] == [];
    } else {
      var line := "note: '" + note + "'";
      NoteLineFacts(note);
      NoteBlockParts(note, line);
      OneLine(line);
    }
  }

  lemma NoteBlockParts(note: string, line: string)
    requires note != "" && line == "note: '" + note + "'"
    ensures NoteBlock(note) == "\n" + (("  " + line) + ['\n'] + "")
  {
  }

  /** A line break, an indented line and its line break give that line. */
  lemma OneLine(line: string)
    requires LineSafe(line) && Trimmed(line)
    ensures CleanLines(Split("\n" + (("  " + line) + ['\n'] + ""), '\n')) == [line]
  {
    LeadingBreak(("  " + line) + ['\n'] + "");
    PaddedLine(line, "", ("  " + line) + ['\n'] + "");
    assert Split("", '\n') == [""];
    assert [""][1..] == [];
  }

  lemma NoteLineFacts(note: string)
    requires LineSafe(note) && note != ""
    ensures LineSafe("note: '" + note + "'") && Trimmed("note: '" + note + "'")
  {
    var line := "note: '" + note + "'";
    assert line[0] == 'n' && line[|line| - 1] == '\'';
  }

  /** The lines the reader takes from a written body. */
  lemma BodyOf(t: Table)
    requires ColumnsWritable(t.columns) && LineSafe(t.note)
    ensures BodyLines(BodyText(t)) == CoreLines(t.columns) + NoteLines(t.note)
  {
    var more := ColumnsText(t.columns) + NoteBlock(t.note);
    assert BodyText(t) == "\n" + more;
    LeadingBreak(more);
    ColumnsLines(t.columns, NoteBlock(t.note));
    NoteBlockLines(t.note);
  }

  /** Reading the written column lines adds their columns in order, and
      neither an index nor a note. */
  lemma {:induction false} ColumnLinesRead(table: string, acc: TableAcc, cols: seq<Column>)
    requires ColumnsWritable(cols)
    ensures var a := ParseLines(table, acc, CoreLines(cols));
            a.columns == acc.columns + RecoveredColumns(cols) && a.indexes == acc.indexes && a.note == acc.note
    decreases |cols|
  {
    if |cols| == 0 {
      assert acc.columns + RecoveredColumns(cols) == acc.columns;
    } else {
      ColumnLineRead(table, acc, cols[0]);
      var next := ParseLine(table, acc, CoreLine(cols[0]));
      ColumnLinesRead(table, next, cols[1..]);
      ParseLinesStep(table, acc, CoreLines(cols), CoreLine(cols[0]), CoreLines(cols[1..]));
      RecoveredColumnsCons(cols);
      ConsAssoc(acc.columns, RecoveredColumn(cols[0]), RecoveredColumns(cols[1..]), RecoveredColumns(cols));
    }
  }

  lemma ParseLinesStep(table: string, acc: TableAcc, lines: seq<string>, first: string, rest: seq<string>)
    requires lines == [first] + rest
    ensures ParseLines(table, acc, lines) == ParseLines(table, ParseLine(table, acc, first), rest)
  {
    assert lines[0] == first && lines[1..] == rest;
  }

  /** Reading two runs of lines is reading the first, then the second. */
  lemma {:induction false} ParseLinesConcat(table: string, acc: TableAcc, a: seq<string>, b: seq<string>)
    ensures ParseLines(table, acc, a + b) == ParseLines(table, ParseLines(table, acc, a), b)
    decreases |a|
  {
    if |a| == 0 {
      assert a + b == b;
    } else {
      ParseLinesStep(table, acc, a + b, a[0], a[1..] + b);
      ParseLinesConcat(table, ParseLine(table, acc, a[0]), a[1..], b);
    }
  }

  lemma NoTerminators(s: string)
    requires forall i :: 0 <= i < |s| ==> !IsLineTerminator(s[i])
    ensures LineEnd(s) == |s|
  {
  }

  /** The written note line sets the table's note to the note. */
  lemma NoteLineRead(table: string, acc: TableAcc, note: string)
    requires LineSafe(note)
    ensures ParseLine(table, acc, "note: '" + note + "'") == acc.(note := note)
  {
    var line := "note: '" + note + "'";
    NoteKey(line, note);
    NoteQuoted(line, note);
  }

  lemma NoteKey(line: string, note: string)
    requires line == "note: '" + note + "'"
    ensures !IsIndexesHeader(line) && |line| >= 7 && Lower(line[..5]) == "note:"
    ensures SpanSpaces(line[5..]) == 1 && IsQuote(line[6]) && line[7..] == note + "'"
  {
    assert Lower(line)[0] == 'n';
    assert line[..5] == "note:";
    assert Lower("note:") == "note:";
    assert line[5..][1..] == line[6..];
  }

  /** From the opening quote to the last quote on the line is the note. */
  lemma NoteQuoted(line: string, note: string)
    requires LineSafe(note) && |line| >= 7 && line[7..] == note + "'"
    ensures var rest := line[7..]; LastQuote(rest[..LineEnd(rest)]) == Some(|note|) && rest[..|note|] == note
  {
    var rest := line[7..];
    forall i | 0 <= i < |rest|
      ensures !IsLineTerminator(rest[i])
    {
      if i < |note| {
        assert rest[i] == note[i];
        assert rest[i] in note;
      }
    }
    NoTerminators(rest);
    assert rest[..LineEnd(rest)] == rest;
  }

  lemma RecoveredColumnsCons(cols: seq<Column>)
    requires |cols| > 0
    ensures RecoveredColumns(cols) == [RecoveredColumn(cols[0])] + RecoveredColumns(cols[1..])
  {
  }

  lemma ConsAssoc<T>(a: seq<T>, x: T, b: seq<T>, whole: seq<T>)
    requires whole == [x] + b
    ensures (a + [x]) + b == a + whole
  {
  }

  /** What the reader gathers from a written body: the columns and the note,
      and no index. */
  lemma BodyRead(t: Table)
    requires TableWritable(t)
    ensures var a := ParseLines(t.name, EmptyAcc, BodyLines(BodyText(t)));
            a.columns == RecoveredColumns(t.columns) && a.indexes == [] && a.note == t.note
  {
    BodyOf(t);
    ParseLinesConcat(t.name, EmptyAcc, CoreLines(t.columns), NoteLines(t.note));
    ColumnLinesRead(t.name, EmptyAcc, t.columns);
    var a1 := ParseLines(t.name, EmptyAcc, CoreLines(t.columns));
    assert [] + RecoveredColumns(t.columns) == RecoveredColumns(t.columns);
    if t.note != "" {
      NoteLineRead(t.name, a1, t.note);
      ParseLinesStep(t.name, a1, NoteLines(t.note), NoteLines(t.note)[0], []);
    }
  }

  /** The table the reader builds from a written header and body. */
  lemma TableOfWritten(t: Table, includeStyle: bool, len: nat)
    requires TableWritable(t) && StyleWritable(t, includeStyle)
    ensures TableOf(TableMatch(t.name, AttrText(t, includeStyle), BodyText(t), len)).tables
            == [RecoveredTable(t, includeStyle)]
  {
    BodyRead(t);
    AttrsRead(t, includeStyle);
  }

  /** Written column lines hold no `/` and no `}`. */
  lemma {:induction false} ColumnsAvoid(cols: seq<Column>)
    requires ColumnsWritable(cols)
    ensures '/' !in ColumnsText(cols) && '}' !in ColumnsText(cols)
    decreases |cols|
  {
    if |cols| > 0 {
      LineFacts(cols[0]);
      ColumnLineParts(cols[0]);
      ColumnsAvoid(cols[1..]);
    }
  }

  /** A written body holds no `/` and no `}`. */
  lemma BodyAvoids(t: Table)
    requires TableWritable(t)
    ensures '/' !in BodyText(t) && '}' !in BodyText(t)
  {
    ColumnsAvoid(t.columns);
  }

  // ---------------------------------------------------------------------
  // Header attributes
  // ---------------------------------------------------------------------

  /** The text between the brackets of a header. */
  function AttrText(t: Table, includeStyle: bool): string {
    Join(StyleAttrs(t, includeStyle), ", ")
  }

  /** The bracketed part of a header, empty when there are no attributes. */
  function HeadText(t: Table, includeStyle: bool): string {
    if |StyleAttrs(t, includeStyle)| > 0 then " [" + AttrText(t, includeStyle) + "]" else ""
  }

  predicate IconWritten(t: Table, includeStyle: bool) {
    includeStyle && Truthy(t.icon) && t.icon.value != "fa-table"
  }

  predicate ColourWritten(t: Table, includeStyle: bool) {
    includeStyle && Truthy(t.color)
  }

  lemma JoinTwo(a: string, b: string)
    ensures Join([a, b], ", ") == a + ", " + b
  {
    assert [a, b][1..] == [b];
  }

  /** The four shapes of the attribute text. */
  lemma AttrShapes(t: Table, includeStyle: bool)
    ensures !IconWritten(t, includeStyle) && !ColourWritten(t, includeStyle)
            ==> |StyleAttrs(t, includeStyle)| == 0 && AttrText(t, includeStyle) == ""
    ensures IconWritten(t, includeStyle) && !ColourWritten(t, includeStyle)
            ==> |StyleAttrs(t, includeStyle)| == 1 && AttrText(t, includeStyle) == "icon: " + t.icon.value
    ensures !IconWritten(t, includeStyle) && ColourWritten(t, includeStyle)
            ==> |StyleAttrs(t, includeStyle)| == 1 && AttrText(t, includeStyle) == "color: " + t.color.value
    ensures IconWritten(t, includeStyle) && ColourWritten(t, includeStyle)
            ==> |StyleAttrs(t, includeStyle)| == 2
                && AttrText(t, includeStyle) == "icon: " + t.icon.value + ", " + "color: " + t.color.value
  {
    if IconWritten(t, includeStyle) && ColourWritten(t, includeStyle) {
      JoinTwo("icon: " + t.icon.value, "color: " + t.color.value);
    }
  }

  lemma IconAvoids(x: string)
    requires IconWord(x)
    ensures ':' !in x && ' ' !in x && ',' !in x && ']' !in x && '/' !in x && '}' !in x
  {
    forall c | c in x
      ensures IsIconChar(c)
    {
      var i :| 0 <= i < |x| && x[i] == c;
    }
  }

  lemma HexAvoids(k: string)
    requires HexColour(k)
    ensures ':' !in k && ']' !in k && '/' !in k && '}' !in k
  {
    forall c | c in k
      ensures c == '#' || IsHexDigit(c)
    {
      var i :| 0 <= i < |k| && k[i] == c;
    }
  }

  /** The attribute text holds no `]`, `/` or `}`. */
  lemma AttrsAvoid(t: Table, includeStyle: bool)
    requires StyleWritable(t, includeStyle)
    ensures ']' !in AttrText(t, includeStyle) && '/' !in AttrText(t, includeStyle)
    ensures '/' !in HeadText(t, includeStyle)
    ensures HeadText(t, includeStyle) == "" ==> AttrText(t, includeStyle) == ""
  {
    AttrShapes(t, includeStyle);
    if IconWritten(t, includeStyle) {
      IconAvoids(t.icon.value);
    }
    if ColourWritten(t, includeStyle) {
      HexAvoids(t.color.value);
    }
  }

  /** Lowering leaves every character but a capital letter as it is. */
  lemma LowerDiffers(w: string, k: nat, c: char)
    requires k < |w| && !('a' <= c <= 'z') && w[k] != c
    ensures Lower(w)[k] != c
  {
    assert Lower(w)[k] == LowerChar(w[k]);
  }

  lemma IconNotSpace(c: char)
    requires IsIconChar(c)
    ensures !IsSpace(c) && c != ':'
  {
  }

  lemma SpanIconWord(x: string, rest: string)
    requires IconWord(x) && (|rest| > 0 ==> !IsIconChar(rest[0]))
    ensures SpanIcon(x + rest) == |x|
  {
    var s := x + rest;
    assert forall i :: 0 <= i < |x| ==> s[i] == x[i];
    assert |rest| > 0 ==> s[|x|] == rest[0];
  }

  /** `icon:` at the start, a space, and an icon word: the icon is read. */
  lemma IconFirst(x: string, rest: string)
    requires IconWord(x) && (|rest| > 0 ==> !IsIconChar(rest[0]))
    ensures FindIcon("icon: " + x + rest) == Some(x)
  {
    var s := "icon: " + x + rest;
    IconKey(s);
    IconSpace(s, x, rest);
    SpanIconWord(x, rest);
    assert (x + rest)[..|x|] == x;
  }

  lemma IconKey(s: string)
    requires |s| >= 5 && s[..5] == "icon:"
    ensures Lower(s[..5]) == "icon:"
  {
  }

  lemma IconSpace(s: string, x: string, rest: string)
    requires IconWord(x) && s == "icon: " + x + rest
    ensures SpanSpaces(s[5..]) == 1 && s[6..] == x + rest && s[..5] == "icon:"
  {
    IconNotSpace(x[0]);
    assert s[5..][1..] == s[6..] && s[6..][0] == x[0];
  }

  /** Without a `:` four places in, no `icon:` starts anywhere. */
  lemma {:induction false} NoIconIn(s: string)
    requires forall i :: 4 <= i < |s| ==> s[i] != ':'
    ensures FindIcon(s) == None
    decreases |s|
  {
    if |s| > 0 {
      if |s| >= 5 {
        LowerDiffers(s[..5], 4, ':');
      }
      NoIconIn(s[1..]);
    }
  }

  /** Nor does one start before the colour's `:`. */
  lemma ColourNoIcon(k: string)
    requires HexColour(k)
    ensures FindIcon("color: " + k) == None
  {
    var s := "color: " + k;
    HexAvoids(k);
    LowerDiffers(s[..5], 4, ':');
    var s1 := s[1..];
    assert s1[..5][0] == 'o';
    assert Lower(s1[..5])[0] == 'o';
    assert s1[1..] == s[2..];
    forall i | 4 <= i < |s[2..]|
      ensures s[2..][i] != ':'
    {
      if i >= 5 {
        assert s[2..][i] == k[i - 5];
        assert k[i - 5] in k;
      }
    }
    NoIconIn(s[2..]);
  }

  /** `color:` at the start, a space, and a colour: the colour is read. */
  lemma ColourFirst(k: string)
    requires HexColour(k)
    ensures FindColor("color: " + k) == Some(k)
  {
    var s := "color: " + k;
    assert s[..6] == "color:";
    assert Lower("color:") == "color:";
    assert s[6..][1..] == s[7..] && s[7..] == k;
    assert SpanSpaces(s[6..]) == 1;
    assert HexColorAt(s[6 + SpanSpaces(s[6..])..]);
    assert s[7..14] == k;
  }

  /** Without a `:` five places in, no `color:` starts in the first `k`
      places. */
  lemma {:induction false} SkipColor(s: string, k: nat)
    requires k + 5 <= |s| && ':' !in s[5..k + 5]
    ensures FindColor(s) == FindColor(s[k..])
    decreases k
  {
    if k > 0 {
      assert s[5] == s[5..k + 5][0];
      LowerDiffers(s[..6], 5, ':');
      assert s[1..][5..k + 4] == s[5..k + 5][1..];
      SkipColor(s[1..], k - 1);
      assert s[1..][k - 1..] == s[k..];
    }
  }

  lemma ShortNoColour(s: string)
    requires |s| < 6
    ensures FindColor(s) == None
  {
  }

  lemma IconNoColour(x: string)
    requires IconWord(x)
    ensures FindColor("icon: " + x) == None
  {
    var s := "icon: " + x;
    IconAvoids(x);
    assert s[5..|s|] == " " + x;
    SkipColor(s, |s| - 5);
    ShortNoColour(s[|s| - 5..]);
  }

  lemma BothRead(x: string, k: string)
    requires IconWord(x) && HexColour(k)
    ensures FindIcon("icon: " + x + ", " + "color: " + k) == Some(x)
    ensures FindColor("icon: " + x + ", " + "color: " + k) == Some(k)
  {
    var p := "icon: " + x + ", ";
    var q := "color: " + k;
    assert "icon: " + x + ", " + "color: " + k == p + q;
    assert p + q == "icon: " + x + (", " + q);
    IconFirst(x, ", " + q);
    ItemNoColon(x);
    assert q[..5] == "color";
    SkipColorPrefix(p, q);
    ColourFirst(k);
  }

  /** The icon item and its separator hold no `:` after the key's. */
  lemma ItemNoColon(x: string)
    requires IconWord(x)
    ensures ':' !in ("icon: " + x + ", ")[5..]
  {
    IconAvoids(x);
    var p := "icon: " + x + ", ";
    assert p[5..] == [' '] + x + [',', ' '];
  }

  /** No `color:` starts in `p` when its `:` could fall only in `p` past
      the fifth place or in the first five of `q`. */
  lemma SkipColorPrefix(p: string, q: string)
    requires |p| >= 5 && |q| >= 5 && ':' !in p[5..] && ':' !in q[..5]
    ensures FindColor(p + q) == FindColor(q)
  {
    var s := p + q;
    SliceAcross(p, q, 5, 5);
    SkipColor(s, |p|);
    assert s[|p|..] == q;
  }

  lemma SliceAcross<T>(p: seq<T>, q: seq<T>, i: nat, j: nat)
    requires i <= |p| && j <= |q|
    ensures (p + q)[i..|p| + j] == p[i..] + q[..j]
  {
  }

  /** The reader takes back the icon and the colour the header carries. */
  lemma AttrsRead(t: Table, includeStyle: bool)
    requires StyleWritable(t, includeStyle)
    ensures FindIcon(AttrText(t, includeStyle)) == RecoveredTable(t, includeStyle).icon
    ensures FindColor(AttrText(t, includeStyle)) == RecoveredTable(t, includeStyle).color
  {
    AttrShapes(t, includeStyle);
    var wi := IconWritten(t, includeStyle);
    var wc := ColourWritten(t, includeStyle);
    if wi && wc {
      BothRead(t.icon.value, t.color.value);
    } else if wi {
      IconFirst(t.icon.value, "");
      assert "icon: " + t.icon.value + "" == "icon: " + t.icon.value;
      IconNoColour(t.icon.value);
    } else if wc {
      ColourNoIcon(t.color.value);
      ColourFirst(t.color.value);
    } else {
      NoAttrs();
    }
  }

  lemma NoAttrs()
    ensures FindIcon("") == None && FindColor("") == None
  {
  }

  // ---------------------------------------------------------------------
  // Table blocks and the whole text
  // ---------------------------------------------------------------------

  /** The block written for a table without indexes. */
  lemma BlockText(t: Table, includeStyle: bool)
    requires t.indexes == []
    ensures TableBlock(t, includeStyle)
            == "Table " + t.name + HeadText(t, includeStyle) + " {" + BodyText(t) + "}" + "\n\n"
  {
  }

  /** Where the pieces of a block `Table name head {body}tail` sit. */
  predicate BlockLayout(s: string, name: string, head: string, body: string, tail: string) {
    var c := 6 + |name|;
    var g := c + |head| + 2;
    |s| == g + |body| + 1 + |tail|
    && s[..6] == "Table " && s[6..c] == name && s[c..c + |head|] == head && s[c + |head|..g] == " {"
    && s[g..g + |body|] == body && s[g + |body|] == '}' && s[g + |body| + 1..] == tail
  }

  lemma BlockLaid(name: string, head: string, body: string, tail: string, s: string)
    requires s == "Table " + name + head + " {" + body + "}" + tail
    ensures BlockLayout(s, name, head, body, tail)
  {
  }

  /** The header part is either nothing or the bracketed attributes. */
  predicate HeadOf(head: string, attrs: string) {
    (head == "" && attrs == "") || (head == " [" + attrs + "]" && ']' !in attrs)
  }

  /** The table pattern matches a written block up to its `}`. */
  lemma BlockMatch(s: string, name: string, head: string, attrs: string, body: string, tail: string, len: nat)
    requires Word(name) && '}' !in body && HeadOf(head, attrs)
    requires BlockLayout(s, name, head, body, tail) && len == |name| + |head| + 8 + |body| + 1
    ensures MatchTable(s) == Some(TableMatch(name, attrs, body, len))
  {
    var g := |name| + |head| + 8;
    BlockHead(s, name, head, body, tail);
    BlockNamed(s, name, head, attrs, body, tail, g);
    BlockBody(s, name, head, attrs, body, tail, g, len);
  }

  lemma BlockNamed(s: string, name: string, head: string, attrs: string, body: string, tail: string, g: nat)
    requires Word(name) && HeadOf(head, attrs) && g == |name| + |head| + 8
    requires BlockLayout(s, name, head, body, tail)
    ensures g <= |s| && MatchNamed(s, 6) == MatchBody(s, g, name, attrs)
  {
    if head == "" {
      BlockName(s, name, body, tail, g);
    } else {
      BlockNameAttrs(s, name, head, attrs, body, tail, g);
    }
  }

  lemma BlockHead(s: string, name: string, head: string, body: string, tail: string)
    requires Word(name)
    requires BlockLayout(s, name, head, body, tail)
    ensures MatchTable(s) == MatchNamed(s, 6)
  {
    assert s[..5] == s[..6][..5] == "Table";
    assert Lower("Table") == "table";
    assert s[5] == s[..6][5] == ' ';
    assert s[6] == s[6..6 + |name|][0] == name[0];
    WordNotSpace(name[0]);
    SkipSpacesTo(s, 5, 6);
  }

  lemma NameRun(s: string, name: string, head: string, body: string, tail: string)
    requires Word(name) && (head == "" || head[0] == ' ')
    requires BlockLayout(s, name, head, body, tail)
    ensures SkipWord(s, 6) == 6 + |name| && s[6..6 + |name|] == name
  {
    var c := 6 + |name|;
    forall k | 6 <= k < c
      ensures IsWordChar(s[k])
    {
      assert s[k] == s[6..c][k - 6] == name[k - 6];
    }
    if head == "" {
      assert s[c] == s[c..c + 2][0] == ' ';
    } else {
      assert s[c] == s[c..c + |head|][0] == head[0];
    }
    SkipWordTo(s, 6, c);
  }

  lemma BlockName(s: string, name: string, body: string, tail: string, g: nat)
    requires Word(name) && g == |name| + 8
    requires BlockLayout(s, name, "", body, tail)
    ensures g <= |s| && MatchNamed(s, 6) == MatchBody(s, g, name, "")
  {
    var c := 6 + |name|;
    NameRun(s, name, "", body, tail);
    assert s[c] == s[c..c + 2][0] == ' ';
    assert s[c + 1] == s[c..c + 2][1] == '{';
    SkipSpacesTo(s, c, c + 1);
  }

  lemma BlockNameAttrs(s: string, name: string, head: string, attrs: string, body: string, tail: string, g: nat)
    requires Word(name) && ']' !in attrs && head == " [" + attrs + "]" && g == |name| + |head| + 8
    requires BlockLayout(s, name, head, body, tail)
    ensures g <= |s| && MatchNamed(s, 6) == MatchBody(s, g, name, attrs)
  {
    var c := 6 + |name|;
    NameRun(s, name, head, body, tail);
    BracketLayout(s, c, attrs);
    BracketMatch(s, 6, c, attrs, g);
  }

  /** Where the characters of ` [attrs] {` sit. */
  lemma BracketLayout(s: string, c: nat, attrs: string)
    requires c + |attrs| + 5 <= |s|
    requires s[c..c + |attrs| + 3] == " [" + attrs + "]" && s[c + |attrs| + 3..c + |attrs| + 5] == " {"
    ensures s[c] == ' ' && s[c + 1] == '[' && s[c + 2..c + 2 + |attrs|] == attrs && s[c + 2 + |attrs|] == ']'
    ensures s[c + 3 + |attrs|] == ' ' && s[c + 4 + |attrs|] == '{'
  {
    var h := s[c..c + |attrs| + 3];
    assert s[c] == h[0] && s[c + 1] == h[1] && s[c + 2 + |attrs|] == h[2 + |attrs|];
    assert h[2..2 + |attrs|] == attrs;
    forall i | 0 <= i < |attrs|
      ensures s[c + 2 + i] == attrs[i]
    {
      assert s[c + 2 + i] == h[2 + i];
    }
    var g := s[c + |attrs| + 3..c + |attrs| + 5];
    assert s[c + 3 + |attrs|] == g[0] && s[c + 4 + |attrs|] == g[1];
  }

  /** The name pattern followed by ` [attrs] {`. */
  lemma BracketMatch(s: string, b: nat, c: nat, attrs: string, g: nat)
    requires b < c && c + |attrs| + 5 <= |s| && SkipWord(s, b) == c && ']' !in attrs
    requires s[c] == ' ' && s[c + 1] == '[' && s[c + 2..c + 2 + |attrs|] == attrs && s[c + 2 + |attrs|] == ']'
    requires s[c + 3 + |attrs|] == ' ' && s[c + 4 + |attrs|] == '{'
    requires g == c + |attrs| + 5
    ensures MatchNamed(s, b) == MatchBody(s, g, s[b..c], attrs)
  {
    var d := c + 1;
    SkipSpacesTo(s, c, d);
    var e := d + 1 + |attrs| + 1;
    SkipSpacesTo(s, e, e + 1);
    BracketClose(s, d, attrs);
    BracketSteps(s, d, e, s[b..c], attrs, g);
  }

  lemma BracketClose(s: string, d: nat, attrs: string)
    requires d + 2 + |attrs| <= |s| && s[d + 1..d + 1 + |attrs|] == attrs && s[d + 1 + |attrs|] == ']' && ']' !in attrs
    ensures IndexOf(s[d + 1..], ']') == Some(|attrs|)
  {
    var rest := s[d + 1..];
    assert rest[..|attrs|] == attrs;
    IndexOfFirst(rest, ']', |attrs|);
  }

  /** The attribute part of the pattern, when the `]` and the `{` are where
      the header puts them. */
  lemma BracketSteps(s: string, d: nat, e: nat, name: string, attrs: string, g: nat)
    requires d < |s|
    requires IndexOf(s[d + 1..], ']') == Some(|attrs|) && e == d + 1 + |attrs| + 1
    requires e + 1 < |s| && SkipSpaces(s, e) == e + 1 && s[e + 1] == '{'
    requires s[d + 1..d + 1 + |attrs|] == attrs && g == e + 2
    ensures MatchAttrs(s, d, name) == MatchBody(s, g, name, attrs)
  {
    var k := |attrs|;
    var f := SkipSpaces(s, d + 1 + k + 1);
    assert f == e + 1 && f < |s| && s[f] == '{';
    assert s[d + 1..d + 1 + k] == attrs;
  }

  lemma BlockBody(s: string, name: string, head: string, attrs: string, body: string, tail: string, g: nat, len: nat)
    requires '}' !in body && g == |name| + |head| + 8 && len == g + |body| + 1
    requires BlockLayout(s, name, head, body, tail)
    ensures MatchBody(s, g, name, attrs) == Some(TableMatch(name, attrs, body, len))
  {
    var rest := s[g..];
    assert rest[..|body|] == body;
    assert rest[|body|] == '}';
    IndexOfFirst(rest, '}', |body|);
  }

  /** A leading line break is skipped by the search for tables. */
  lemma ScanBreak(x: string)
    ensures ScanTables("\n" + x) == ScanTables(x)
  {
    var s := "\n" + x;
    if |s| >= 5 {
      assert Lower(s[..5])[0] == '\n';
    }
    assert s[1..] == x;
  }

  /** A written block parses to its table, and the search resumes after it. */
  lemma ScanBlock(t: Table, includeStyle: bool, more: string)
    requires TableWritable(t) && StyleWritable(t, includeStyle)
    ensures Collect(ScanTables(TableBlock(t, includeStyle) + more)).tables
            == [RecoveredTable(t, includeStyle)] + Collect(ScanTables(more)).tables
  {
    var head := HeadText(t, includeStyle);
    var attrs := AttrText(t, includeStyle);
    var body := BodyText(t);
    var s := TableBlock(t, includeStyle) + more;
    var len := |t.name| + |head| + 8 + |body| + 1;
    var m := TableMatch(t.name, attrs, body, len);
    BlockText(t, includeStyle);
    BodyAvoids(t);
    AttrsAvoid(t, includeStyle);
    BlockFound(t.name, head, attrs, body, more, s, len);
    ScanFound(s, m, more);
    TableOfWritten(t, includeStyle, m.len);
  }

  lemma BlockFound(name: string, head: string, attrs: string, body: string, more: string, s: string, len: nat)
    requires Word(name) && '}' !in body && HeadOf(head, attrs) && len == |name| + |head| + 8 + |body| + 1
    requires s == ("Table " + name + head + " {" + body + "}" + "\n\n") + more
    ensures MatchTable(s) == Some(TableMatch(name, attrs, body, len))
    ensures len <= |s| && s[len..] == "\n\n" + more
  {
    var tail := "\n\n" + more;
    BlockConcat("Table " + name + head + " {" + body + "}", more, s);
    BlockLaid(name, head, body, tail, s);
    BlockMatch(s, name, head, attrs, body, tail, len);
  }

  /** After a match, the two line breaks that end a block are skipped. */
  lemma ScanFound(s: string, m: TableMatch, more: string)
    requires |s| > 0 && MatchTable(s) == Some(m)
    requires s[m.len..] == "\n\n" + more
    ensures Collect(ScanTables(s)).tables == TableOf(m).tables + Collect(ScanTables(more)).tables
  {
    CollectStep(s, m);
    TwoBreaks(more, s[m.len..]);
  }

  lemma TwoBreaks(more: string, rest: string)
    requires rest == "\n\n" + more
    ensures ScanTables(rest) == ScanTables(more)
  {
    assert rest == "\n" + ("\n" + more);
    ScanBreak("\n" + more);
    ScanBreak(more);
  }

  lemma BlockConcat(head: string, more: string, s: string)
    requires s == (head + "\n\n") + more
    ensures s == head + ("\n\n" + more)
  {
  }

  /** Tables `generate` writes in a form the reader takes back. */
  predicate AllWritable(ts: seq<Table>, includeStyle: bool) {
    forall i :: 0 <= i < |ts| ==> TableWritable(ts[i]) && StyleWritable(ts[i], includeStyle)
  }

  /** Written blocks hold no `/`. */
  lemma {:induction false} DslAvoids(ts: seq<Table>, includeStyle: bool)
    requires AllWritable(ts, includeStyle)
    ensures '/' !in DslText(ts, includeStyle)
    decreases |ts|
  {
    if |ts| > 0 {
      BlockAvoids(ts[0], includeStyle);
      DslAvoids(ts[1..], includeStyle);
      DslUnfold(ts, includeStyle);
    }
  }

  /** A written block holds no `/`. */
  lemma BlockAvoids(t: Table, includeStyle: bool)
    requires TableWritable(t) && StyleWritable(t, includeStyle)
    ensures '/' !in TableBlock(t, includeStyle)
  {
    BlockText(t, includeStyle);
    BodyAvoids(t);
    AttrsAvoid(t, includeStyle);
    WordSafe(t.name);
  }

  /** The search over written blocks finds each of them, in order. */
  lemma {:induction false} DslRead(ts: seq<Table>, includeStyle: bool)
    requires AllWritable(ts, includeStyle)
    ensures Collect(ScanTables(DslText(ts, includeStyle))).tables == Recovered(ts, includeStyle)
    decreases |ts|
  {
    if |ts| == 0 {
      JoinedEmpty(ParseResult([], []));
    } else {
      DslUnfold(ts, includeStyle);
      ScanBlock(ts[0], includeStyle, DslText(ts[1..], includeStyle));
      DslRead(ts[1..], includeStyle);
      RecoveredCons(ts, includeStyle);
    }
  }

  lemma RecoveredCons(ts: seq<Table>, includeStyle: bool)
    requires |ts| > 0
    ensures Recovered(ts, includeStyle) == [RecoveredTable(ts[0], includeStyle)] + Recovered(ts[1..], includeStyle)
  {
    var r := [RecoveredTable(ts[0], includeStyle)] + Recovered(ts[1..], includeStyle);
    assert |r| == |ts|;
    forall i | 0 <= i < |ts|
      ensures r[i] == Recovered(ts, includeStyle)[i]
    {
      if i > 0 {
        assert r[i] == Recovered(ts[1..], includeStyle)[i - 1];
      }
    }
  }

  /** `parse(generate(tables))` gives the tables back at the origin, with
      their names, their notes, their columns (types normalised, a key
      column's `not null` dropped, a reference marked `not null`), no index,
      and, when styles are written, their icons (none for `fa-table`) and
      colours; and one relationship per referencing column, in order. */
  lemma GenerateThenParse(ts: seq<Table>, includeStyle: bool)
    requires AllWritable(ts, includeStyle)
    ensures ParseDsl(DslText(ts, includeStyle))
            == ParseResult(Recovered(ts, includeStyle), TableRefs(Recovered(ts, includeStyle)))
  {
    DslAvoids(ts, includeStyle);
    StripCommentsNoSlash(DslText(ts, includeStyle));
    DslRead(ts, includeStyle);
    ParsedTables(DslText(ts, includeStyle));
  }
}
