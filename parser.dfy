/** The reader of the diagram DSL (`DBPARSER.parse`, `parseConstraints`,
    `normalizeType`). Each regular expression the reader applies is written
    out as a scanning function with the same matches: the patterns involved
    never need to backtrack into an alternative that succeeds, so the first
    place a scan succeeds is the match the JavaScript engine reports. */
module Parser {
  import opened Wrappers
  import opened Text
  import opened Schema

  // ---------------------------------------------------------------------
  // Comments
  // ---------------------------------------------------------------------

  /** Number of leading characters before the first line terminator. */
  function LineEnd(s: string): (n: nat)
    ensures n <= |s|
    ensures forall i :: 0 <= i < n ==> !IsLineTerminator(s[i])
    ensures n < |s| ==> IsLineTerminator(s[n])
  {
    if |s| == 0 || IsLineTerminator(s[0]) then 0 else 1 + LineEnd(s[1..])
  }

  /** `replace(/\/\/.*$/gm, '')`: every `//` goes together with the rest of
      its line; the line break stays, and no `//` is left. */
  function StripLineComments(s: string): (r: string)
    ensures |r| <= |s|
    ensures |r| > 0 && r[0] == '/' ==> s[0] == '/'
    ensures forall i :: 0 <= i < |r| - 1 ==> !(r[i] == '/' && r[i + 1] == '/')
    decreases |s|
  {
    if |s| == 0 then ""
    else if |s| >= 2 && s[0] == '/' && s[1] == '/' then
      var rest := s[2 + LineEnd(s[2..])..];
      assert |rest| > 0 ==> IsLineTerminator(rest[0]);
      StripLineComments(rest)
    else
      var tail := StripLineComments(s[1..]);
      assert |tail| > 0 && tail[0] == '/' ==> s[1] == '/';
      [s[0]] + tail
  }

  /** First position of `*\/` in `s`. */
  function FindCloser(s: string): (r: Option<nat>)
    ensures r.Some? ==> r.value + 1 < |s| && s[r.value] == '*' && s[r.value + 1] == '/'
    ensures r.None? ==> forall i :: 0 <= i < |s| - 1 ==> !(s[i] == '*' && s[i + 1] == '/')
  {
    if |s| < 2 then None
    else if s[0] == '*' && s[1] == '/' then Some(0)
    else match FindCloser(s[1..])
      case Some(k) => Some(k + 1)
      case None => None
  }

  /** `replace(/\/\*[\s\S]*?\*\//g, '')`: every comment opener goes up to and including
      the first closer after it. An unclosed opener stays, and so does all that
      follows it, since no later comment could close either. */
  function StripBlockComments(s: string): (r: string)
    ensures |r| <= |s|
    decreases |s|
  {
    if |s| == 0 then ""
    else if |s| >= 2 && s[0] == '/' && s[1] == '*' then
      (match FindCloser(s[2..])
       case Some(k) => StripBlockComments(s[k + 4..])
       case None => s)
    else [s[0]] + StripBlockComments(s[1..])
  }

  function StripComments(s: string): string {
    StripBlockComments(StripLineComments(s))
  }

  /** Text without a `/` has no comment to remove. */
  lemma {:induction false} StripCommentsNoSlash(s: string)
    requires '/' !in s
    ensures StripComments(s) == s
  {
    StripLineNoSlash(s);
    StripBlockNoSlash(s);
  }

  lemma {:induction false} StripLineNoSlash(s: string)
    requires '/' !in s
    ensures StripLineComments(s) == s
  {
    if |s| > 0 {
      assert '/' !in s[1..];
      StripLineNoSlash(s[1..]);
    }
  }

  lemma {:induction false} StripBlockNoSlash(s: string)
    requires '/' !in s
    ensures StripBlockComments(s) == s
  {
    if |s| > 0 {
      assert '/' !in s[1..];
      StripBlockNoSlash(s[1..]);
    }
  }

  // ---------------------------------------------------------------------
  // Table blocks
  // ---------------------------------------------------------------------

  /** One match of `/Table\s+(\w+)\s*(?:\[([^\]]*)\])?\s*\{([\s\S]*?)\}/i` at
      the start of the text: the name, the bracketed attributes (empty when
      absent), the body up to the first `}`, and the length matched. */
  datatype TableMatch = TableMatch(name: string, attrs: string, body: string, len: nat)

  predicate AllWordChars(s: string) {
    forall i :: 0 <= i < |s| ==> IsWordChar(s[i])
  }

  /** The table pattern matched at the start of `s`, if it matches there. */
  function MatchTable(s: string): (r: Option<TableMatch>)
    ensures r.Some? ==> 0 < r.value.len <= |s|
    ensures r.Some? ==> '}' !in r.value.body
    ensures r.Some? ==> |r.value.name| > 0 && AllWordChars(r.value.name)
    ensures r.Some? ==> |s| >= 5 && Lower(s[..5]) == "table"
  {
    if |s| < 5 || Lower(s[..5]) != "table" then None
    else
      var b := SkipSpaces(s, 5);
      if b == 5 then None else MatchNamed(s, b)
  }

  /** The rest of the table pattern, from the position `b` of the name. */
  function MatchNamed(s: string, b: nat): (r: Option<TableMatch>)
    requires b <= |s|
    ensures r.Some? ==> 0 < r.value.len <= |s|
    ensures r.Some? ==> '}' !in r.value.body
    ensures r.Some? ==> |r.value.name| > 0 && AllWordChars(r.value.name)
  {
    var c := SkipWord(s, b);
    SkipWordChars(s, b);
    if c == b then None
    else
      var d := SkipSpaces(s, c);
      if d < |s| && s[d] == '[' then MatchAttrs(s, d, s[b..c])
      else if d < |s| && s[d] == '{' then MatchBody(s, d + 1, s[b..c], "")
      else None
  }

  /** From the `[` at position `d`: the attributes up to the first `]`,
      optional spaces, then the body. */
  function MatchAttrs(s: string, d: nat, name: string): (r: Option<TableMatch>)
    requires d < |s|
    ensures r.Some? ==> 0 < r.value.len <= |s| && '}' !in r.value.body && r.value.name == name
  {
    match IndexOf(s[d + 1..], ']')
    case None => None
    case Some(k) =>
      var e := d + 1 + k + 1;
      var f := SkipSpaces(s, e);
      if f < |s| && s[f] == '{' then MatchBody(s, f + 1, name, s[d + 1..d + 1 + k]) else None
  }

  /** The lazy body group: everything up to the first `}`, which ends the match. */
  function MatchBody(s: string, g: nat, name: string, attrs: string): (r: Option<TableMatch>)
    requires 0 < g <= |s|
    ensures r.Some? ==> r.value.len == g + |r.value.body| + 1 <= |s|
    ensures r.Some? ==> '}' !in r.value.body && r.value.name == name && r.value.attrs == attrs
    ensures r.Some? ==> r.value.body == s[g..g + |r.value.body|] && s[g + |r.value.body|] == '}'
  {
    match IndexOf(s[g..], '}')
    case None => None
    case Some(k) => Some(TableMatch(name, attrs, s[g..g + k], g + k + 1))
  }

  /** The `exec` loop: the matches in order, each search resuming where the
      previous match ended. */
  function ScanTables(s: string): (ms: seq<TableMatch>)
    ensures forall i :: 0 <= i < |ms| ==> '}' !in ms[i].body
    decreases |s|
  {
    if |s| == 0 then []
    else match MatchTable(s)
      case Some(m) => [m] + ScanTables(s[m.len..])
      case None => ScanTables(s[1..])
  }

  // ---------------------------------------------------------------------
  // Table attributes
  // ---------------------------------------------------------------------

  predicate IsIconChar(c: char) {
    IsWordChar(c) || c == '-'
  }

  function SpanIcon(s: string): (n: nat)
    ensures n <= |s|
    ensures forall i :: 0 <= i < n ==> IsIconChar(s[i])
    ensures n < |s| ==> !IsIconChar(s[n])
  {
    if |s| == 0 || !IsIconChar(s[0]) then 0 else 1 + SpanIcon(s[1..])
  }

  /** `attrs.match(/icon:\s*([\w-]+)/i)[1]`. */
  function FindIcon(s: string): (r: Option<string>)
    ensures r.Some? ==> |r.value| > 0 && forall i :: 0 <= i < |r.value| ==> IsIconChar(r.value[i])
    decreases |s|
  {
    if |s| == 0 then None
    else if |s| >= 5 && Lower(s[..5]) == "icon:" && IconAfter(s[5 + SpanSpaces(s[5..])..]).Some? then
      IconAfter(s[5 + SpanSpaces(s[5..])..])
    else FindIcon(s[1..])
  }

  /** The run of icon characters `t` starts with, when there is one. */
  function IconAfter(t: string): (r: Option<string>)
    ensures r.Some? ==> |r.value| > 0 && forall i :: 0 <= i < |r.value| ==> IsIconChar(r.value[i])
  {
    var n := SpanIcon(t);
    if n == 0 then None else Some(t[..n])
  }

  predicate HexColorAt(s: string) {
    |s| >= 7 && s[0] == '#' && forall i :: 1 <= i < 7 ==> IsHexDigit(s[i])
  }

  /** `attrs.match(/color:\s*(#[0-9a-fA-F]{6})/i)[1]`. */
  function FindColor(s: string): (r: Option<string>)
    ensures r.Some? ==> HexColorAt(r.value) && |r.value| == 7
    decreases |s|
  {
    if |s| == 0 then None
    else if |s| >= 6 && Lower(s[..6]) == "color:" && HexColorAt(s[6 + SpanSpaces(s[6..])..]) then
      var a := 6 + SpanSpaces(s[6..]);
      Some(s[a..a + 7])
    else FindColor(s[1..])
  }

  // ---------------------------------------------------------------------
  // Body lines
  // ---------------------------------------------------------------------

  /** `.map(l => l.trim()).filter(l => l)`. */
  function CleanLines(parts: seq<string>): (lines: seq<string>)
    ensures forall i :: 0 <= i < |lines| ==> lines[i] != ""
  {
    if |parts| == 0 then []
    else
      var t := Trim(parts[0]);
      (if t == "" then [] else [t]) + CleanLines(parts[1..])
  }

  function BodyLines(body: string): seq<string> {
    CleanLines(Split(body, '\n'))
  }

  /** `line.toLowerCase().startsWith('indexes')`. */
  predicate IsIndexesHeader(line: string) {
    StartsWith(Lower(line), "indexes")
  }

  predicate IsQuote(c: char) {
    c == '\'' || c == '"'
  }

  /** Position of the last quote character in `s`. */
  function LastQuote(s: string): (r: Option<nat>)
    ensures r.Some? ==> r.value < |s| && IsQuote(s[r.value])
    ensures r.Some? ==> forall i :: r.value < i < |s| ==> !IsQuote(s[i])
    ensures r.None? ==> forall i :: 0 <= i < |s| ==> !IsQuote(s[i])
  {
    if |s| == 0 then None
    else if IsQuote(s[|s| - 1]) then Some(|s| - 1)
    else LastQuote(s[..|s| - 1])
  }

  /** `line.match(/^note:\s*['"](.*)['"]/i)[1]`: from the first quote to the
      last quote on the line (`.` stops at a line terminator). */
  function NoteText(line: string): (r: Option<string>)
    ensures r.Some? ==> |line| >= 5 && Lower(line[..5]) == "note:"
  {
    if |line| < 5 || Lower(line[..5]) != "note:" then None
    else
      var a := 5 + SpanSpaces(line[5..]);
      if a < |line| && IsQuote(line[a]) then
        var rest := line[a + 1..];
        (match LastQuote(rest[..LineEnd(rest)])
         case Some(q) => Some(rest[..q])
         case None => None)
      else None
  }

  /** `line.match(/^Index(es)?\s*\{([\s\S]*?)\}/i)[2]`: needs a `}` on the line. */
  function IndexLine(line: string): (r: Option<string>)
    ensures r.Some? ==> '}' in line
  {
    if |line| < 5 || Lower(line[..5]) != "index" then None
    else
      var a := if |line| >= 7 && Lower(line[5..7]) == "es" then 7 else 5;
      var b := a + SpanSpaces(line[a..]);
      if b < |line| && line[b] == '{' then
        (match IndexOf(line[b + 1..], '}')
         case Some(k) => (assert line[b + 1 + k] == '}'; Some(line[b + 1..b + 1 + k]))
         case None => None)
      else None
  }

  /** `content.match(/\((\w+)\)/)[1]`. */
  function SingleIndex(s: string): (r: Option<string>)
    decreases |s|
  {
    if |s| == 0 then None
    else
      var w := SpanWord(s[1..]);
      if s[0] == '(' && w > 0 && 1 + w < |s| && s[1 + w] == ')' then Some(s[1..1 + w])
      else SingleIndex(s[1..])
  }

  /** `content.match(/\((\w+),\s*(\w+)\)/)`, its two groups. */
  function CompositeIndex(s: string): (r: Option<(string, string)>)
    decreases |s|
  {
    if |s| == 0 then None
    else
      var w := SpanWord(s[1..]);
      var a := 1 + w + 1;
      if s[0] == '(' && w > 0 && 1 + w < |s| && s[1 + w] == ',' then
        var b := a + SpanSpaces(s[a..]);
        var v := SpanWord(s[b..]);
        if v > 0 && b + v < |s| && s[b + v] == ')' then Some((s[1..1 + w], s[b..b + v]))
        else CompositeIndex(s[1..])
      else CompositeIndex(s[1..])
  }

  /** The pieces of a column line: the three groups of
      `/^(\w+)\s+(\w+(?:\([^)]+\))?)\s*(.*)?$/`. */
  datatype ColumnText = ColumnText(name: string, typeText: string, rest: string)

  /** Where the type group ends: after the word, and after a parenthesised
      size when one with at least one character follows it directly. */
  function TypeEnd(line: string, b: nat): (e: nat)
    requires b <= |line|
    ensures b <= e <= |line|
  {
    if b < |line| && line[b] == '(' then
      (match IndexOf(line[b + 1..], ')')
       case Some(k) => if k > 0 then b + 1 + k + 1 else b
       case None => b)
    else b
  }

  /** The column pattern: the name group ends at `n`, at least one space
      follows, up to `a`; the type word ends at `b` and the type group, with
      its size, at `e`; optional spaces lead to `f`, where the last group
      starts. That group holds no line terminator (`$` without the `m`
      flag). */
  function MatchColumn(line: string): (r: Option<ColumnText>)
    ensures r.Some? ==> |r.value.name| > 0 && AllWordChars(r.value.name)
  {
    var n := SkipWord(line, 0);
    var a := SkipSpaces(line, n);
    var b := SkipWord(line, a);
    var e := TypeEnd(line, b);
    var f := SkipSpaces(line, e);
    SkipWordChars(line, 0);
    if n == 0 || a == n || b == a || HasLineBreak(line[f..]) then None
    else Some(ColumnText(line[..n], line[a..e], line[f..]))
  }

  // ---------------------------------------------------------------------
  // Constraints
  // ---------------------------------------------------------------------

  datatype Ref = Ref(table: string, column: string)

  /** The record `parseConstraints` fills in. */
  datatype Constraints = Constraints(
    pk: bool,
    increment: bool,
    notNull: bool,
    unique: bool,
    defaultValue: Option<string>,
    ref: Option<Ref>,
    note: Option<string>)

  const NoConstraints: Constraints := Constraints(false, false, false, false, None, None, None)

  function TrimAll(parts: seq<string>): (r: seq<string>)
    ensures |r| == |parts|
    ensures forall i :: 0 <= i < |r| ==> r[i] == Trim(parts[i])
  {
    seq(|parts|, i requires 0 <= i < |parts| => Trim(parts[i]))
  }

  /** The bracket-free, comma-separated, trimmed items of a constraint list. */
  function ConstraintItems(s: string): (items: seq<string>)
    ensures |items| > 0
  {
    TrimAll(Split(RemoveChar(RemoveChar(s, '['), ']'), ','))
  }

  /** The target of a `ref:` item: what follows the first `>` (or the whole
      item when there is none), split at `.`; the column defaults to `id`. */
  function RefOf(c: string): (r: Ref)
    ensures r.column != ""
  {
    RefOfBody(Trim(c[RefStart(c)..]))
  }

  /** Where the target text of a `ref:` item starts: after the first `>`. */
  function RefStart(c: string): (k: nat)
    ensures k <= |c|
  {
    match IndexOf(c, '>') case Some(k) => k + 1 case None => 0
  }

  /** The target named by the trimmed text after the arrow. */
  function RefOfBody(body: string): (r: Ref)
    ensures r.column != ""
  {
    RefOfParts(TrimAll(Split(body, '.')))
  }

  function RefOfParts(parts: seq<string>): (r: Ref)
    requires |parts| > 0
    ensures r.column != ""
  {
    Ref(parts[0], if |parts| > 1 && parts[1] != "" then parts[1] else "id")
  }

  /** What kind of constraint an item is, decided in the order of the
      `if`/`else if` chain of `parseConstraints` (case-insensitively). */
  datatype ItemKind = PkItem | IncrementItem | NotNullItem | UniqueItem | DefaultItem | RefItem | NoteItem | OtherItem

  function KindOf(c: string): (k: ItemKind)
    ensures k == DefaultItem ==> |c| >= 8
    ensures k == NoteItem ==> |c| >= 5
  {
    KindOfLower(Lower(c))
  }

  /** The classification of an item by its lower-case form. */
  function KindOfLower(lower: string): (k: ItemKind)
    ensures k == DefaultItem ==> |lower| >= 8
    ensures k == NoteItem ==> |lower| >= 5
  {
    if lower == "pk" || lower == "primary key" then PkItem
    else if lower == "increment" || lower == "auto_increment" || lower == "autoincrement" then IncrementItem
    else if lower == "not null" then NotNullItem
    else if lower == "unique" then UniqueItem
    else if StartsWith(lower, "default:") then DefaultItem
    else if StartsWith(lower, "ref:") || StartsWith(lower, "references:") then RefItem
    else if StartsWith(lower, "note:") then NoteItem
    else OtherItem
  }

  /** One constraint item applied to the record. */
  function ApplyConstraint(r: Constraints, c: string): Constraints {
    ApplyKind(r, c, KindOf(c))
  }

  /** An item of a known kind applied to the record; the `default:` and
      `note:` prefixes are dropped by length. */
  function ApplyKind(r: Constraints, c: string, k: ItemKind): Constraints
    requires k == DefaultItem ==> |c| >= 8
    requires k == NoteItem ==> |c| >= 5
  {
    match k
    case PkItem => r.(pk := true)
    case IncrementItem => r.(increment := true, pk := true)
    case NotNullItem => r.(notNull := true)
    case UniqueItem => r.(unique := true)
    case DefaultItem => r.(defaultValue := Some(Trim(c[8..])))
    case RefItem => r.(ref := Some(RefOf(c)), notNull := true)
    case NoteItem => r.(note := Some(RemoveChar(RemoveChar(Trim(c[5..]), '\''), '"')))
    case OtherItem => r
  }

  function FoldConstraints(r: Constraints, items: seq<string>): Constraints
    decreases |items|
  {
    if |items| == 0 then r else FoldConstraints(ApplyKind(r, items[0], KindOf(items[0])), items[1..])
  }

  /** `parseConstraints`: the empty string gives the defaults. */
  function ParsedConstraints(s: string): Constraints {
    if s == "" then NoConstraints else FoldConstraints(NoConstraints, ConstraintItems(s))
  }

  /** `parseConstraints`, as the loop over the items it is. */
  method ParseConstraints(s: string) returns (r: Constraints)
    ensures r == ParsedConstraints(s)
  {
    r := NoConstraints;
    if s == "" {
      return;
    }
    var items := ConstraintItems(s);
    var i := 0;
    while i < |items|
      invariant 0 <= i <= |items|
      invariant FoldConstraints(r, items[i..]) == ParsedConstraints(s)
    {
      assert items[i..][1..] == items[i + 1..];
      r := ApplyConstraint(r, items[i]);
      i := i + 1;
    }
  }

  /** The boolean facts a constraint record carries. */
  datatype Flag = PkFlag | IncrementFlag | NotNullFlag | UniqueFlag | RefFlag

  function FlagOf(r: Constraints, fl: Flag): bool {
    match fl
    case PkFlag => r.pk
    case IncrementFlag => r.increment
    case NotNullFlag => r.notNull
    case UniqueFlag => r.unique
    case RefFlag => r.ref.Some?
  }

  /** Which kinds of item set which flag. */
  function Sets(k: ItemKind, fl: Flag): bool {
    match fl
    case PkFlag => k == PkItem || k == IncrementItem
    case IncrementFlag => k == IncrementItem
    case NotNullFlag => k == NotNullItem || k == RefItem
    case UniqueFlag => k == UniqueItem
    case RefFlag => k == RefItem
  }

  /** A flag is set after a list of items exactly when it was set before or
      one of the items sets it: nothing is ever cleared. */
  lemma {:induction false} FoldFlag(r: Constraints, items: seq<string>, fl: Flag)
    ensures FlagOf(FoldConstraints(r, items), fl) <==> FlagOf(r, fl) || exists i :: 0 <= i < |items| && Sets(KindOf(items[i]), fl)
    decreases |items|
  {
    if |items| > 0 {
      ApplyFlag(r, items[0], fl);
      FoldFlag(ApplyConstraint(r, items[0]), items[1..], fl);
      assert forall i :: 0 <= i < |items| - 1 ==> items[1..][i] == items[i + 1];
    }
  }

  /** The flags one item sets. */
  lemma ApplyFlag(r: Constraints, c: string, fl: Flag)
    ensures FlagOf(ApplyConstraint(r, c), fl) <==> FlagOf(r, fl) || Sets(KindOf(c), fl)
  {
    KindFlag(r, c, KindOf(c), fl);
  }

  lemma KindFlag(r: Constraints, c: string, k: ItemKind, fl: Flag)
    requires k == DefaultItem ==> |c| >= 8
    requires k == NoteItem ==> |c| >= 5
    ensures FlagOf(ApplyKind(r, c, k), fl) <==> FlagOf(r, fl) || Sets(k, fl)
  {
    if k == DefaultItem || k == NoteItem {
      ValueItemFlag(r, c, k, fl);
    } else {
      FlagItemFlag(r, c, k, fl);
    }
  }

  /** Every other item sets exactly the flags `Sets` names. */
  lemma FlagItemFlag(r: Constraints, c: string, k: ItemKind, fl: Flag)
    requires k != DefaultItem && k != NoteItem
    ensures FlagOf(ApplyKind(r, c, k), fl) <==> FlagOf(r, fl) || Sets(k, fl)
  {
    match k {
      case PkItem =>
      case IncrementItem =>
      case NotNullItem =>
      case UniqueItem =>
      case RefItem =>
      case OtherItem =>
    }
  }

  /** A default or a note item sets no flag. */
  lemma ValueItemFlag(r: Constraints, c: string, k: ItemKind, fl: Flag)
    requires (k == DefaultItem && |c| >= 8) || (k == NoteItem && |c| >= 5)
    ensures FlagOf(ApplyKind(r, c, k), fl) == FlagOf(r, fl)
  {
    var a := ApplyKind(r, c, k);
    assert a.pk == r.pk && a.increment == r.increment && a.notNull == r.notNull && a.unique == r.unique && a.ref == r.ref;
  }

  /** The flags of a parsed constraint list: a key item or an increment item
      sets `pk`; only an increment item sets `increment`; `not null` or a
      reference sets `notNull`; `unique` sets `unique`; a reference item sets
      `ref`. */
  lemma ParsedFlags(s: string, fl: Flag)
    ensures FlagOf(ParsedConstraints(s), fl) <==> s != "" && exists i :: 0 <= i < |ConstraintItems(s)| && Sets(KindOf(ConstraintItems(s)[i]), fl)
  {
    if s != "" {
      FoldFlag(NoConstraints, ConstraintItems(s), fl);
    }
  }

  /** The last reference item decides the target. */
  lemma {:induction false} FoldLastRef(r: Constraints, items: seq<string>, j: nat)
    requires j < |items| && KindOf(items[j]) == RefItem
    requires forall i :: j < i < |items| ==> KindOf(items[i]) != RefItem
    ensures FoldConstraints(r, items).ref == Some(RefOf(items[j]))
    decreases |items|
  {
    var tail := items[1..];
    NoRefTail(items, j);
    FoldStep(r, items);
    if j == 0 {
      ApplyRef(r, items[0]);
      FoldKeepsRef(ApplyConstraint(r, items[0]), tail);
    } else {
      FoldLastRef(ApplyConstraint(r, items[0]), tail, j - 1);
    }
  }

  lemma NoRefTail(items: seq<string>, j: nat)
    requires j < |items| && KindOf(items[j]) == RefItem
    requires forall i :: j < i < |items| ==> KindOf(items[i]) != RefItem
    ensures j > 0 ==> KindOf(items[1..][j - 1]) == RefItem
    ensures forall i :: j - 1 < i < |items| - 1 ==> KindOf(items[1..][i]) != RefItem
  {
    var tail := items[1..];
    forall i | j - 1 < i < |tail|
      ensures KindOf(tail[i]) != RefItem
    {
      assert tail[i] == items[i + 1];
    }
  }

  lemma FoldStep(r: Constraints, items: seq<string>)
    requires |items| > 0
    ensures FoldConstraints(r, items) == FoldConstraints(ApplyConstraint(r, items[0]), items[1..])
  {
  }

  lemma ApplyRef(r: Constraints, c: string)
    requires KindOf(c) == RefItem
    ensures ApplyConstraint(r, c).ref == Some(RefOf(c))
  {
  }

  lemma {:induction false} FoldKeepsRef(r: Constraints, items: seq<string>)
    requires forall i :: 0 <= i < |items| ==> KindOf(items[i]) != RefItem
    ensures FoldConstraints(r, items).ref == r.ref
    decreases |items|
  {
    if |items| > 0 {
      assert KindOf(items[0]) != RefItem;
      FoldKeepsRef(ApplyConstraint(r, items[0]), items[1..]);
    }
  }

  /** What every parsed constraint record satisfies: an increment makes the
      column a key, and a reference makes it required. */
  predicate Coherent(r: Constraints) {
    (r.increment ==> r.pk) && (r.ref.Some? ==> r.notNull)
  }

  lemma {:induction false} FoldCoherent(r: Constraints, items: seq<string>)
    requires Coherent(r)
    ensures Coherent(FoldConstraints(r, items))
    decreases |items|
  {
    if |items| > 0 {
      FoldCoherent(ApplyConstraint(r, items[0]), items[1..]);
    }
  }

  /** An increment item makes the column a key as well, and a reference
      makes it required, whatever else the list holds. */
  lemma ParsedCoherent(s: string)
    ensures Coherent(ParsedConstraints(s))
  {
    if s != "" {
      FoldCoherent(NoConstraints, ConstraintItems(s));
    }
  }

  /** A reference written `ref: > table.column` with word names targets
      exactly that table and column. */
  lemma RefOfTarget(t: string, col: string)
    requires |t| > 0 && AllWordChars(t) && |col| > 0 && AllWordChars(col)
    ensures RefOf("ref: > " + t + "." + col) == Ref(t, col)
  {
    RefTextFacts(t, col);
    RefOfSplit("ref: > " + t + "." + col, 5, t + ['.'] + col, [t, col]);
  }

  lemma RefTextFacts(t: string, col: string)
    requires |t| > 0 && AllWordChars(t) && |col| > 0 && AllWordChars(col)
    ensures var c := "ref: > " + t + "." + col;
            IndexOf(c, '>') == Some(5) && Trim(c[6..]) == t + ['.'] + col
            && TrimAll(Split(t + ['.'] + col, '.')) == [t, col]
  {
    var body := t + ['.'] + col;
    RefTextShape(t, col);
    ArrowAt("ref: ", " " + body);
    TargetBody(t, col);
  }

  lemma RefTextShape(t: string, col: string)
    ensures "ref: > " + t + "." + col == "ref: " + ['>'] + (" " + (t + ['.'] + col))
  {
  }

  lemma TargetBody(t: string, col: string)
    requires |t| > 0 && AllWordChars(t) && |col| > 0 && AllWordChars(col)
    ensures Trim(" " + (t + ['.'] + col)) == t + ['.'] + col
    ensures TrimAll(Split(t + ['.'] + col, '.')) == [t, col]
  {
    TrimLeadingSpaces(" ", t + ['.'] + col);
    TargetParts(t, col);
  }

  lemma TargetParts(t: string, col: string)
    requires AllWordChars(t) && AllWordChars(col)
    ensures TrimAll(Split(t + ['.'] + col, '.')) == [t, col]
  {
    assert '.' !in t && '.' !in col;
    assert t + ['.'] + col == t + "." + col;
    SplitTwo(t, col);
    WordTrim(t);
    WordTrim(col);
    TrimAllTwo(t, col);
  }

  /** A word has nothing to trim. */
  lemma WordTrim(w: string)
    requires AllWordChars(w)
    ensures Trim(w) == w
  {
    TrimNoSpace(w);
  }

  /** Without a `>`, the whole item is the table part: `ref: users.id`
      targets a table named `ref: users`. */
  lemma RefWithoutArrow(t: string, col: string)
    requires |t| > 0 && AllWordChars(t) && |col| > 0 && AllWordChars(col)
    ensures RefOf("ref: " + t + "." + col) == Ref("ref: " + t, col)
  {
    NoArrowFacts(t, col);
    RefOfNoArrow("ref: " + t + "." + col, "ref: " + t + "." + col, ["ref: " + t, col]);
  }

  lemma NoArrowFacts(t: string, col: string)
    requires |t| > 0 && AllWordChars(t) && |col| > 0 && AllWordChars(col)
    ensures var c := "ref: " + t + "." + col;
            IndexOf(c, '>') == None && Trim(c) == c && TrimAll(Split(c, '.')) == ["ref: " + t, col]
  {
    var head := "ref: " + t;
    assert head[0] == 'r' && head[|head| - 1] == t[|t| - 1];
    assert '.' !in head && '>' !in head by {
      assert forall i :: 0 <= i < |head| ==> head[i] != '.' && head[i] != '>';
    }
    NoArrowText(head, col);
    NoArrowParts(head, col);
  }

  lemma NoArrowText(head: string, col: string)
    requires |head| > 0 && !IsSpace(head[0]) && '>' !in head && |col| > 0 && AllWordChars(col)
    ensures IndexOf(head + "." + col, '>') == None && Trim(head + "." + col) == head + "." + col
  {
    var c := head + "." + col;
    WordLacks(col, '>');
    assert '>' !in c;
    WordEnds(col);
    assert c[0] == head[0] && c[|c| - 1] == col[|col| - 1];
    TrimNoSpace(c);
  }

  lemma NoArrowParts(head: string, col: string)
    requires |head| > 0 && !IsSpace(head[0]) && !IsSpace(head[|head| - 1]) && '.' !in head
    requires AllWordChars(col)
    ensures TrimAll(Split(head + "." + col, '.')) == [head, col]
  {
    assert '.' !in col;
    SplitTwo(head, col);
    TrimNoSpace(head);
    WordTrim(col);
    TrimAllTwo(head, col);
  }

  lemma SplitTwo(a: string, b: string)
    requires '.' !in a && '.' !in b
    ensures Split(a + "." + b, '.') == [a, b]
  {
    assert a + "." + b == a + ['.'] + b;
    SplitConcat(a, '.', b);
    SplitNoSep(b, '.');
  }

  lemma TrimAllTwo(a: string, b: string)
    requires Trim(a) == a && Trim(b) == b
    ensures TrimAll([a, b]) == [a, b]
  {
    var p := [a, b];
    var r := TrimAll(p);
    assert |r| == 2 && r[0] == a && r[1] == b;
    assert r == [r[0], r[1]];
  }

  lemma RefOfNoArrow(c: string, body: string, parts: seq<string>)
    requires IndexOf(c, '>') == None && Trim(c) == body && TrimAll(Split(body, '.')) == parts
    ensures RefOf(c) == Ref(parts[0], if |parts| > 1 && parts[1] != "" then parts[1] else "id")
  {
    assert c[0..] == c;
  }

  /** Without a column after the table, the reference targets `id`:
      `ref: > users` means `users.id`. */
  lemma RefOfTableOnly(t: string)
    requires |t| > 0 && AllWordChars(t)
    ensures RefOf("ref: > " + t) == Ref(t, "id")
  {
    var c := "ref: > " + t;
    assert c == "ref: " + ['>'] + (" " + t);
    ArrowAt("ref: ", " " + t);
    TableOnlyBody(t);
    RefOfSplit(c, 5, t, [t]);
  }

  lemma TableOnlyBody(t: string)
    requires |t| > 0 && AllWordChars(t)
    ensures Trim(" " + t) == t
    ensures TrimAll(Split(t, '.')) == [t]
  {
    WordEnds(t);
    TrimLeadingSpaces(" ", t);
    WordLacks(t, '.');
    SplitNoSep(t, '.');
    WordTrim(t);
    var p := [t];
    var r := TrimAll(p);
    assert r[0] == Trim(p[0]);
  }

  lemma WordEnds(t: string)
    requires |t| > 0 && AllWordChars(t)
    ensures !IsSpace(t[0]) && !IsSpace(t[|t| - 1])
  {
    assert IsWordChar(t[0]) && IsWordChar(t[|t| - 1]);
  }

  lemma WordLacks(t: string, ch: char)
    requires AllWordChars(t) && !IsWordChar(ch)
    ensures ch !in t
  {
    forall i | 0 <= i < |t|
      ensures t[i] != ch
    {
      assert IsWordChar(t[i]);
    }
  }

  lemma ArrowAt(prefix: string, rest: string)
    requires '>' !in prefix
    ensures IndexOf(prefix + ['>'] + rest, '>') == Some(|prefix|)
    ensures (prefix + ['>'] + rest)[|prefix| + 1..] == rest
  {
    var c := prefix + ['>'] + rest;
    assert c[..|prefix|] == prefix;
    IndexOfFirst(c, '>', |prefix|);
  }

  /** `RefOf` in terms of the arrow position and the trimmed parts. */
  lemma RefOfSplit(c: string, k: nat, body: string, parts: seq<string>)
    requires IndexOf(c, '>') == Some(k) && Trim(c[k + 1..]) == body && TrimAll(Split(body, '.')) == parts
    ensures RefOf(c) == Ref(parts[0], if |parts| > 1 && parts[1] != "" then parts[1] else "id")
  {
  }

  // ---------------------------------------------------------------------
  // Types
  // ---------------------------------------------------------------------

  /** The synonym table of `normalizeType`, keyed by upper-case base type. */
  function TypeSynonym(base: string): Option<string> {
    if base in {"INT", "INTEGER", "SMALLINT", "BIGINT", "TINYINT"} then Some("int")
    else if base in {"VARCHAR", "STRING"} then Some("varchar")
    else if base == "CHAR" then Some("char")
    else if base == "TEXT" then Some("text")
    else if base in {"BOOLEAN", "BOOL"} then Some("bool")
    else if base == "DATETIME" then Some("datetime")
    else if base == "TIMESTAMP" then Some("timestamp")
    else if base == "DATE" then Some("date")
    else if base == "TIME" then Some("time")
    else if base in {"DECIMAL", "NUMERIC"} then Some("decimal")
    else if base in {"FLOAT", "DOUBLE", "REAL"} then Some("float")
    else if base in {"BLOB", "BINARY"} then Some("blob")
    else if base == "JSON" then Some("json")
    else if base == "UUID" then Some("uuid")
    else None
  }

  /** `type.replace(/\([^)]+\)/, '')`: the first parenthesised group with at
      least one character inside is removed. */
  function RemoveFirstGroup(s: string): (r: string)
    ensures |r| <= |s|
    decreases |s|
  {
    if |s| == 0 then ""
    else if s[0] == '(' && IndexOf(s[1..], ')').Some? && IndexOf(s[1..], ')').value > 0 then
      s[1 + IndexOf(s[1..], ')').value + 1..]
    else [s[0]] + RemoveFirstGroup(s[1..])
  }

  /** The groups of `type.match(/\((\d+)(?:,(\d+))?\)/)`. */
  datatype Size = Size(digits: string, scale: Option<string>)

  function SizeAt(s: string): (r: Option<Size>)
    requires |s| > 0
  {
    var d := SpanDigits(s[1..]);
    if s[0] != '(' || d == 0 || 1 + d >= |s| then None
    else if s[1 + d] == ')' then Some(Size(s[1..1 + d], None))
    else if s[1 + d] == ',' then
      var e := SpanDigits(s[2 + d..]);
      if e > 0 && 2 + d + e < |s| && s[2 + d + e] == ')' then Some(Size(s[1..1 + d], Some(s[2 + d..2 + d + e])))
      else None
    else None
  }

  function FindSize(s: string): (r: Option<Size>)
    decreases |s|
  {
    if |s| == 0 then None
    else if SizeAt(s).Some? then SizeAt(s)
    else FindSize(s[1..])
  }

  /** What a size holds between its parentheses. */
  function SizeInner(sz: Size): string {
    match sz.scale
    case Some(scale) => sz.digits + "," + scale
    case None => sz.digits
  }

  /** The size as `normalizeType` writes it back: `(n)` or `(n,m)`. */
  function SizeText(sz: Size): string {
    "(" + SizeInner(sz) + ")"
  }

  /** The synonym of an upper-case base type, or else the base type in lower case. */
  function MappedType(base: string): string {
    match TypeSynonym(base)
    case Some(m) => m
    case None => Lower(base)
  }

  /** `normalizeType`. */
  function NormalizeType(t: string): string {
    var mapped := MappedType(Upper(RemoveFirstGroup(t)));
    match FindSize(t)
    case None => mapped
    case Some(sz) => mapped + SizeText(sz)
  }

  predicate AllDigits(s: string) {
    forall i :: 0 <= i < |s| ==> IsDigit(s[i])
  }

  /** A size the size pattern can match: digits, and digits after the comma. */
  predicate ValidSize(sz: Size) {
    |sz.digits| > 0 && AllDigits(sz.digits)
    && (sz.scale.Some? ==> |sz.scale.value| > 0 && AllDigits(sz.scale.value))
  }

  /** A type written as a word and an optional size. */
  function TypeText(w: string, sz: Option<Size>): string {
    match sz
    case Some(z) => w + SizeText(z)
    case None => w
  }

  /** The type of every column of the form `word` or `word(size)`: the
      word's synonym (or the word in lower case) and the size, written back
      without spaces. */
  lemma NormalizeShape(w: string, sz: Option<Size>)
    requires AllWordChars(w) && (sz.Some? ==> ValidSize(sz.value))
    ensures NormalizeType(Upper(TypeText(w, sz))) == TypeText(MappedType(Upper(w)), sz)
  {
    NoParenWord(w);
    UpperIdempotent(w);
    match sz {
      case None =>
        NormalizePlain(Upper(w));
      case Some(z) =>
        UpperConcat(w, SizeText(z));
        SizeTextUpper(z);
        NormalizeSized(Upper(w), z);
    }
  }

  lemma NormalizePlain(w: string)
    requires AllWordChars(w) && '(' !in w && Upper(w) == w
    ensures NormalizeType(w) == MappedType(w)
  {
    RemoveFirstGroupNoParen(w);
    FindSizeNoParen(w);
    NormalizeParts(w, w, None);
  }

  lemma NormalizeSized(w: string, z: Size)
    requires AllWordChars(w) && Upper(w) == w && ValidSize(z) && ')' !in SizeInner(z)
    ensures NormalizeType(w + SizeText(z)) == MappedType(w) + SizeText(z)
  {
    GroupAfterWord(w, SizeText(z), SizeInner(z));
    FindSizeAfterWord(w, z);
    NormalizeParts(w + SizeText(z), w, Some(z));
  }

  /** `normalizeType` in terms of its two scans. */
  lemma NormalizeParts(t: string, base: string, sz: Option<Size>)
    requires RemoveFirstGroup(t) == base && FindSize(t) == sz
    ensures NormalizeType(t) == TypeText(MappedType(Upper(base)), sz)
  {
  }

  lemma SizeTextUpper(sz: Size)
    requires ValidSize(sz)
    ensures Upper(SizeText(sz)) == SizeText(sz)
    ensures ')' !in SizeInner(sz)
  {
    var t := SizeText(sz);
    assert forall i :: 0 <= i < |t| ==> !('a' <= t[i] <= 'z') by {
      assert forall i :: 0 <= i < |sz.digits| ==> IsDigit(sz.digits[i]);
    }
    assert forall i :: 0 <= i < |t| ==> UpperChar(t[i]) == t[i];
  }

  lemma NoParenWord(w: string)
    requires AllWordChars(w)
    ensures '(' !in Upper(w) && AllWordChars(Upper(w))
  {
    assert forall i :: 0 <= i < |w| ==> IsWordChar(UpperChar(w[i]));
  }

  lemma UpperIdempotent(w: string)
    ensures Upper(Upper(w)) == Upper(w)
  {
    assert forall i :: 0 <= i < |w| ==> UpperChar(UpperChar(w[i])) == UpperChar(w[i]);
  }

  lemma {:induction false} RemoveFirstGroupNoParen(s: string)
    requires '(' !in s
    ensures RemoveFirstGroup(s) == s
  {
    if |s| > 0 {
      assert '(' !in s[1..];
      RemoveFirstGroupNoParen(s[1..]);
    }
  }

  lemma {:induction false} FindSizeNoParen(s: string)
    requires '(' !in s
    ensures FindSize(s) == None
  {
    if |s| > 0 {
      assert SizeAt(s) == None;
      assert '(' !in s[1..];
      FindSizeNoParen(s[1..]);
    }
  }

  lemma {:induction false} GroupAfterWord(w: string, g: string, inner: string)
    requires AllWordChars(w) && |inner| > 0 && ')' !in inner && g == "(" + inner + ")"
    ensures RemoveFirstGroup(w + g) == w
  {
    if |w| == 0 {
      assert w + g == g;
      GroupAlone(g, inner);
    } else {
      GroupWordStep(w, g);
      GroupAfterWord(w[1..], g, inner);
    }
  }

  lemma GroupAlone(g: string, inner: string)
    requires |inner| > 0 && ')' !in inner && g == "(" + inner + ")"
    ensures RemoveFirstGroup(g) == ""
  {
    assert g[1..] == inner + ")";
    IndexOfFirst(g[1..], ')', |inner|);
    assert g[1 + |inner| + 1..] == "";
  }

  lemma GroupWordStep(w: string, g: string)
    requires |w| > 0 && AllWordChars(w)
    ensures RemoveFirstGroup(w + g) == [w[0]] + RemoveFirstGroup(w[1..] + g)
    ensures AllWordChars(w[1..])
  {
    var s := w + g;
    assert IsWordChar(w[0]);
    assert s[0] == w[0] && s[0] != '(';
    assert s[1..] == w[1..] + g;
  }

  lemma {:induction false} FindSizeAfterWord(w: string, sz: Size)
    requires AllWordChars(w) && ValidSize(sz)
    ensures FindSize(w + SizeText(sz)) == Some(sz)
  {
    var s := w + SizeText(sz);
    if |w| == 0 {
      assert s == SizeText(sz);
      SizeAtText(sz);
    } else {
      assert s[0] == w[0] && s[0] != '(';
      assert SizeAt(s) == None;
      assert s[1..] == w[1..] + SizeText(sz);
      FindSizeAfterWord(w[1..], sz);
    }
  }

  lemma SizeAtText(sz: Size)
    requires ValidSize(sz)
    ensures SizeAt(SizeText(sz)) == Some(sz)
  {
    match sz.scale {
      case None => SizeAtPlain(sz.digits);
      case Some(v) => SizeAtScaled(sz.digits, v);
    }
  }

  lemma SizeAtPlain(n: string)
    requires |n| > 0 && AllDigits(n)
    ensures SizeAt("(" + n + ")") == Some(Size(n, None))
  {
    var t := "(" + n + ")";
    assert t[1..] == n + ")";
    SpanDigitsExact(n, ")");
    assert t[1..1 + |n|] == n;
  }

  lemma SizeAtScaled(n: string, v: string)
    requires |n| > 0 && AllDigits(n) && |v| > 0 && AllDigits(v)
    ensures SizeAt("(" + (n + "," + v) + ")") == Some(Size(n, Some(v)))
  {
    var t := "(" + (n + "," + v) + ")";
    assert t[1..] == n + ("," + v + ")");
    SpanDigitsExact(n, "," + v + ")");
    assert t[1..1 + |n|] == n;
    assert t[2 + |n|..] == v + ")";
    SpanDigitsExact(v, ")");
    assert t[2 + |n|..2 + |n| + |v|] == v;
  }

  lemma SpanDigitsExact(d: string, rest: string)
    requires AllDigits(d)
    requires |rest| > 0 && !IsDigit(rest[0])
    ensures SpanDigits(d + rest) == |d|
  {
    if |d| > 0 {
      assert (d + rest)[1..] == d[1..] + rest;
      SpanDigitsExact(d[1..], rest);
    } else {
      assert d + rest == rest;
    }
  }

  /** A size with a space after its comma, as in `DECIMAL(10, 2)`. */
  function SpacedSize(n: string, m: string): string {
    "(" + n + ", " + m + ")"
  }

  /** A size written with a space after the comma is not re-attached:
      `DECIMAL(10, 2)` is read as plain `decimal`. */
  lemma NormalizeSpacedSize(w: string, n: string, m: string)
    requires AllWordChars(w) && Upper(w) == w && |n| > 0 && AllDigits(n) && AllDigits(m)
    ensures NormalizeType(w + SpacedSize(n, m)) == MappedType(w)
  {
    assert ')' !in n + ", " + m;
    GroupAfterWord(w, SpacedSize(n, m), n + ", " + m);
    NoSizeSpaced(w, n, m);
    NormalizeParts(w + SpacedSize(n, m), w, None);
  }

  lemma SizeAtSpaced(n: string, m: string)
    requires |n| > 0 && AllDigits(n) && AllDigits(m)
    ensures SizeAt(SpacedSize(n, m)) == None && '(' !in SpacedSize(n, m)[1..]
  {
    var s := SpacedSize(n, m);
    assert s[1..] == n + (", " + m + ")");
    SpanDigitsExact(n, ", " + m + ")");
    assert s[2 + |n|..] == " " + m + ")";
  }

  lemma {:induction false} NoSizeSpaced(w: string, n: string, m: string)
    requires AllWordChars(w) && |n| > 0 && AllDigits(n) && AllDigits(m)
    ensures FindSize(w + SpacedSize(n, m)) == None
  {
    var s := w + SpacedSize(n, m);
    if |w| == 0 {
      assert s == SpacedSize(n, m);
      SizeAtSpaced(n, m);
      FindSizeNoParen(s[1..]);
    } else {
      assert s[0] == w[0] && s[0] != '(';
      assert s[1..] == w[1..] + SpacedSize(n, m);
      NoSizeSpaced(w[1..], n, m);
    }
  }

  // ---------------------------------------------------------------------
  // Columns, tables and the whole text
  // ---------------------------------------------------------------------

  /** The column a column line describes. */
  function ColumnOf(ct: ColumnText): (c: Column)
    ensures c.name == ct.name
    ensures c.fk <==> ParsedConstraints(ct.rest).ref.Some?
    ensures c.fk ==> c.notNull && c.refColumn.Some?
  {
    var k := ParsedConstraints(ct.rest);
    ParsedCoherent(ct.rest);
    Column(ct.name, NormalizeType(Upper(ct.typeText)), k.pk, k.increment, k.notNull, k.unique, k.defaultValue,
           k.ref.Some?,
           if k.ref.Some? && k.ref.value.table != "" then Some(k.ref.value.table) else None,
           if k.ref.Some? then Some(k.ref.value.column) else None,
           k.note)
  }

  /** The relationship a referencing column line adds. */
  function RefRelationship(table: string, ct: ColumnText): Option<Relationship> {
    match ParsedConstraints(ct.rest).ref
    case None => None
    case Some(ref) => Some(Relationship(table, ct.name, ref.table, ref.column))
  }

  /** What has been read of a table body so far. */
  datatype TableAcc = TableAcc(columns: seq<Column>, indexes: seq<seq<string>>, note: string, rels: seq<Relationship>)

  const EmptyAcc: TableAcc := TableAcc([], [], "", [])

  /** One body line: an `Indexes` header is skipped, a note sets the table's
      note, an index line adds its indexes, a column line adds the column
      and, for a reference, the relationship. Anything else is ignored. */
  function ParseLine(table: string, acc: TableAcc, line: string): TableAcc {
    if IsIndexesHeader(line) then acc
    else if NoteText(line).Some? then acc.(note := NoteText(line).value)
    else if IndexLine(line).Some? then
      var content := IndexLine(line).value;
      var single := match SingleIndex(content) case Some(c) => [[c]] case None => [];
      var composite := match CompositeIndex(content) case Some(p) => [[p.0, p.1]] case None => [];
      acc.(indexes := acc.indexes + single + composite)
    else match MatchColumn(line)
      case None => acc
      case Some(ct) =>
        var rel := match RefRelationship(table, ct) case Some(r) => [r] case None => [];
        acc.(columns := acc.columns + [ColumnOf(ct)], rels := acc.rels + rel)
  }

  function ParseLines(table: string, acc: TableAcc, lines: seq<string>): TableAcc
    decreases |lines|
  {
    if |lines| == 0 then acc else ParseLines(table, ParseLine(table, acc, lines[0]), lines[1..])
  }

  datatype ParseResult = ParseResult(tables: seq<Table>, relationships: seq<Relationship>)

  /** The table a match describes, and the relationships its columns add.
      Every parsed table starts at the origin. */
  function TableOf(m: TableMatch): ParseResult {
    var acc := ParseLines(m.name, EmptyAcc, BodyLines(m.body));
    ParseResult([Table(m.name, acc.columns, acc.indexes, acc.note, FindIcon(m.attrs), FindColor(m.attrs),
                       0.0, 0.0, None)],
                acc.rels)
  }

  function Collect(ms: seq<TableMatch>): ParseResult
    decreases |ms|
  {
    if |ms| == 0 then ParseResult([], []) else Joined(TableOf(ms[0]), Collect(ms[1..]))
  }

  /** `DBPARSER.parse`. */
  function ParseDsl(text: string): ParseResult {
    Collect(ScanTables(StripComments(text)))
  }

  /** `DBPARSER.parse` as the `exec` loop it is. */
  method Parse(text: string) returns (result: ParseResult)
    ensures result == ParseDsl(text)
  {
    var rest := StripComments(text);
    var tables: seq<Table> := [];
    var rels: seq<Relationship> := [];
    JoinedEmpty(ParseDsl(text));
    while |rest| > 0
      invariant Joined(ParseResult(tables, rels), Collect(ScanTables(rest))) == ParseDsl(text)
      decreases |rest|
    {
      tables, rels, rest := ParseAt(rest, tables, rels);
    }
    JoinedEmpty(ParseResult(tables, rels));
    result := ParseResult(tables, rels);
  }

  /** The empty result is neutral on both sides. */
  lemma JoinedEmpty(a: ParseResult)
    ensures Joined(ParseResult([], []), a) == a && Joined(a, ParseResult([], [])) == a
    ensures Collect(ScanTables("")) == ParseResult([], [])
  {
    assert [] + a.tables == a.tables && a.tables + [] == a.tables;
    assert [] + a.relationships == a.relationships && a.relationships + [] == a.relationships;
  }

  /** One round of the `exec` loop on the text not yet searched: a table
      matched at its start is parsed and added, and the search resumes after
      it; otherwise it resumes one character further on. */
  method ParseAt(s: string, tables: seq<Table>, rels: seq<Relationship>)
    returns (tables': seq<Table>, rels': seq<Relationship>, rest: string)
    requires |s| > 0
    ensures |rest| < |s|
    ensures Joined(ParseResult(tables', rels'), Collect(ScanTables(rest)))
            == Joined(ParseResult(tables, rels), Collect(ScanTables(s)))
  {
    var m := MatchTable(s);
    if m.Some? {
      var t := ParseTableBody(m.value);
      CollectStep(s, m.value);
      ParseFound(s, tables, rels, m.value, t);
      tables' := tables + t.tables;
      rels' := rels + t.relationships;
      rest := s[m.value.len..];
    } else {
      tables', rels', rest := tables, rels, s[1..];
    }
  }

  lemma ParseFound(s: string, tables: seq<Table>, rels: seq<Relationship>, m: TableMatch, t: ParseResult)
    requires m.len <= |s|
    requires Collect(ScanTables(s)) == Joined(t, Collect(ScanTables(s[m.len..])))
    ensures Joined(ParseResult(tables + t.tables, rels + t.relationships), Collect(ScanTables(s[m.len..])))
            == Joined(ParseResult(tables, rels), Collect(ScanTables(s)))
  {
    JoinedAssoc(ParseResult(tables, rels), t, Collect(ScanTables(s[m.len..])));
  }

  /** One match of the `exec` loop contributes its table to the result. */
  lemma CollectStep(s: string, m: TableMatch)
    requires |s| > 0 && MatchTable(s) == Some(m)
    ensures Collect(ScanTables(s)) == Joined(TableOf(m), Collect(ScanTables(s[m.len..])))
  {
    ScanAt(s, m);
    CollectCons(m, ScanTables(s[m.len..]));
  }

  lemma ScanAt(s: string, m: TableMatch)
    requires |s| > 0 && MatchTable(s) == Some(m)
    ensures ScanTables(s) == [m] + ScanTables(s[m.len..])
  {
  }

  lemma CollectCons(m: TableMatch, rest: seq<TableMatch>)
    ensures Collect([m] + rest) == Joined(TableOf(m), Collect(rest))
  {
    assert ([m] + rest)[1..] == rest;
  }

  /** Two results one after the other. */
  function Joined(a: ParseResult, b: ParseResult): ParseResult {
    ParseResult(a.tables + b.tables, a.relationships + b.relationships)
  }

  lemma JoinedAssoc(a: ParseResult, b: ParseResult, c: ParseResult)
    ensures Joined(Joined(a, b), c) == Joined(a, Joined(b, c))
  {
  }

  /** The line loop over one table body. */
  method ParseTableBody(m: TableMatch) returns (r: ParseResult)
    ensures r == TableOf(m)
  {
    var lines := BodyLines(m.body);
    var acc := EmptyAcc;
    var i := 0;
    while i < |lines|
      invariant 0 <= i <= |lines|
      invariant ParseLines(m.name, acc, lines[i..]) == ParseLines(m.name, EmptyAcc, lines)
    {
      assert lines[i..][1..] == lines[i + 1..];
      acc := ParseLine(m.name, acc, lines[i]);
      i := i + 1;
    }
    r := ParseResult([Table(m.name, acc.columns, acc.indexes, acc.note, FindIcon(m.attrs), FindColor(m.attrs),
                            0.0, 0.0, None)],
                     acc.rels);
  }

  // ---------------------------------------------------------------------
  // What a parse produces
  // ---------------------------------------------------------------------

  /** The relationship a foreign-key column of table `t` stands for. */
  function ColumnRelationship(t: string, c: Column): Relationship {
    Relationship(t, c.name, c.refTable.GetOr(""), c.refColumn.GetOr("id"))
  }

  /** One relationship per foreign-key column, in column order. */
  function ColumnRefs(t: string, cols: seq<Column>): seq<Relationship>
    decreases |cols|
  {
    if |cols| == 0 then []
    else
      var last := cols[|cols| - 1];
      ColumnRefs(t, cols[..|cols| - 1]) + (if last.fk then [ColumnRelationship(t, last)] else [])
  }

  /** One relationship per foreign-key column, table by table. */
  function TableRefs(tables: seq<Table>): seq<Relationship>
    decreases |tables|
  {
    if |tables| == 0 then [] else ColumnRefs(tables[0].name, tables[0].columns) + TableRefs(tables[1..])
  }

  /** A table as the reader creates it: at the origin, unmeasured and without
      indexes, since the first `}` ends the body before an index block can. */
  predicate FreshTable(t: Table) {
    t.x == 0.0 && t.y == 0.0 && t.indexes == [] && t.renderedWidth == None
  }

  /** Every column line keeps the relationships in step with the columns. */
  lemma ParseLineRefs(table: string, acc: TableAcc, line: string)
    requires acc.rels == ColumnRefs(table, acc.columns)
    ensures var a := ParseLine(table, acc, line);
            a.rels == ColumnRefs(table, a.columns)
  {
    if !IsIndexesHeader(line) && NoteText(line).None? && IndexLine(line).None? && MatchColumn(line).Some? {
      var ct := MatchColumn(line).value;
      var cols := acc.columns + [ColumnOf(ct)];
      assert cols[..|cols| - 1] == acc.columns;
      var c := ColumnOf(ct);
      match ParsedConstraints(ct.rest).ref {
        case None =>
        case Some(ref) =>
          assert c.fk && ColumnRelationship(table, c) == Relationship(table, ct.name, ref.table, ref.column);
      }
    }
  }

  lemma {:induction false} ParseLinesRefs(table: string, acc: TableAcc, lines: seq<string>)
    requires acc.rels == ColumnRefs(table, acc.columns)
    ensures var a := ParseLines(table, acc, lines);
            a.rels == ColumnRefs(table, a.columns)
    decreases |lines|
  {
    if |lines| > 0 {
      ParseLineRefs(table, acc, lines[0]);
      ParseLinesRefs(table, ParseLine(table, acc, lines[0]), lines[1..]);
    }
  }

  /** No line without a `}` adds an index. */
  lemma {:induction false} ParseLinesNoIndexes(table: string, acc: TableAcc, lines: seq<string>)
    requires forall i :: 0 <= i < |lines| ==> '}' !in lines[i]
    ensures ParseLines(table, acc, lines).indexes == acc.indexes
    decreases |lines|
  {
    if |lines| > 0 {
      assert IndexLine(lines[0]).None?;
      assert ParseLine(table, acc, lines[0]).indexes == acc.indexes;
      ParseLinesNoIndexes(table, ParseLine(table, acc, lines[0]), lines[1..]);
    }
  }

  lemma {:induction false} SplitAvoids(s: string, sep: char, c: char)
    requires c !in s
    ensures forall i :: 0 <= i < |Split(s, sep)| ==> c !in Split(s, sep)[i]
    decreases |s|
  {
    match IndexOf(s, sep) {
      case None =>
      case Some(k) =>
        assert c !in s[k + 1..] && c !in s[..k];
        SplitAvoids(s[k + 1..], sep, c);
    }
  }

  lemma TrimAvoids(s: string, c: char)
    requires c !in s
    ensures c !in Trim(s)
  {
    var t := TrimStart(s);
    assert c !in t;
  }

  lemma {:induction false} CleanLinesAvoid(parts: seq<string>, c: char)
    requires forall i :: 0 <= i < |parts| ==> c !in parts[i]
    ensures forall i :: 0 <= i < |CleanLines(parts)| ==> c !in CleanLines(parts)[i]
    decreases |parts|
  {
    if |parts| > 0 {
      TrimAvoids(parts[0], c);
      CleanLinesAvoid(parts[1..], c);
    }
  }

  /** The table a match describes is fresh, and its relationships are its
      foreign-key columns'. */
  lemma TableOfFacts(m: TableMatch)
    requires '}' !in m.body
    ensures |TableOf(m).tables| == 1 && FreshTable(TableOf(m).tables[0])
    ensures TableOf(m).relationships == TableRefs(TableOf(m).tables)
  {
    var acc := ParseLines(m.name, EmptyAcc, BodyLines(m.body));
    BodyNoIndexes(m);
    ParseLinesRefs(m.name, EmptyAcc, BodyLines(m.body));
    SingleTableRefs(TableOf(m).tables, acc.rels);
  }

  /** No body line adds an index, since none holds a `}`. */
  lemma BodyNoIndexes(m: TableMatch)
    requires '}' !in m.body
    ensures ParseLines(m.name, EmptyAcc, BodyLines(m.body)).indexes == []
  {
    SplitAvoids(m.body, '\n', '}');
    CleanLinesAvoid(Split(m.body, '\n'), '}');
    ParseLinesNoIndexes(m.name, EmptyAcc, BodyLines(m.body));
  }

  /** The relationships of a single table are its columns'. */
  lemma SingleTableRefs(t: seq<Table>, rels: seq<Relationship>)
    requires |t| == 1 && rels == ColumnRefs(t[0].name, t[0].columns)
    ensures rels == TableRefs(t)
  {
    assert t[1..] == [];
  }

  lemma {:induction false} CollectFacts(ms: seq<TableMatch>)
    requires forall i :: 0 <= i < |ms| ==> '}' !in ms[i].body
    ensures forall i :: 0 <= i < |Collect(ms).tables| ==> FreshTable(Collect(ms).tables[i])
    ensures Collect(ms).relationships == TableRefs(Collect(ms).tables)
    decreases |ms|
  {
    if |ms| > 0 {
      TableOfFacts(ms[0]);
      CollectFacts(ms[1..]);
      JoinedFacts(TableOf(ms[0]), Collect(ms[1..]));
    }
  }

  /** A fresh single-table result followed by results with the same facts. */
  lemma JoinedFacts(a: ParseResult, b: ParseResult)
    requires |a.tables| == 1 && FreshTable(a.tables[0]) && a.relationships == TableRefs(a.tables)
    requires forall i :: 0 <= i < |b.tables| ==> FreshTable(b.tables[i])
    requires b.relationships == TableRefs(b.tables)
    ensures forall i :: 0 <= i < |Joined(a, b).tables| ==> FreshTable(Joined(a, b).tables[i])
    ensures Joined(a, b).relationships == TableRefs(Joined(a, b).tables)
  {
    var all := a.tables + b.tables;
    assert all[0] == a.tables[0] && all[1..] == b.tables;
    assert TableRefs(a.tables) == ColumnRefs(a.tables[0].name, a.tables[0].columns) by {
      assert a.tables[1..] == [];
    }
  }

  /** What `DBPARSER.parse` promises: every table starts at (0, 0) without
      indexes, and the relationships are exactly one per column carrying a
      reference, from that table and column to its target, in order. */
  lemma ParsedTables(text: string)
    ensures forall i :: 0 <= i < |ParseDsl(text).tables| ==> FreshTable(ParseDsl(text).tables[i])
    ensures ParseDsl(text).relationships == TableRefs(ParseDsl(text).tables)
  {
    CollectFacts(ScanTables(StripComments(text)));
  }
}
