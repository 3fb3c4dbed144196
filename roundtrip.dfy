/** Reading back what `generate` writes: for tables whose names, types and
    values the diagram language can carry, `parse(generate(tables))` gives the
    tables back at the origin with their names, notes, columns, types
    (normalised), key flags and references, with their icons and colours when
    styles are written, and one relationship per reference. A key column's
    `not null` is not written, so it does not come back. */
module RoundTrip {
  import opened Wrappers
  import opened Text
  import opened Schema
  import opened Parser
  import opened Generator

  // ---------------------------------------------------------------------
  // What the diagram language can carry
  // ---------------------------------------------------------------------

  /** No line terminator. */
  predicate NoBreak(s: string) {
    '\n' !in s && '\r' !in s && '\U{2028}' !in s && '\U{2029}' !in s
  }

  /** Text that stays on its line, inside its table body and outside any
      comment. */
  predicate LineSafe(s: string) {
    NoBreak(s) && '/' !in s && '}' !in s
  }

  /** Text that also stays inside one constraint item of a bracketed list. */
  predicate ItemSafe(s: string) {
    LineSafe(s) && '[' !in s && ']' !in s && ',' !in s
  }

  predicate Word(s: string) {
    |s| > 0 && AllWordChars(s)
  }

  /** Nothing for `trim` to remove, and something left. */
  predicate Trimmed(s: string) {
    |s| > 0 && !IsSpace(s[0]) && !IsSpace(s[|s| - 1])
  }

  /** A type the column pattern reads back whole: a word, optionally followed
      by a parenthesised size that holds no `)`. */
  predicate TypeWritable(t: string) {
    var n := SkipWord(t, 0);
    0 < n && LineSafe(t)
    && (n == |t| || (|t| >= n + 3 && t[n] == '(' && t[|t| - 1] == ')' && ')' !in t[n + 1..|t| - 1]))
  }

  /** A column `generate` writes in a form the reader takes back: a word name
      that the reader does not mistake for an `Indexes` header, a readable
      type, plain default and note values (the note without quotes) and word
      reference targets. */
  predicate ColumnWritable(c: Column) {
    Word(c.name) && !StartsWith(Lower(c.name), "indexes") && TypeWritable(c.typeName)
    && (Truthy(c.defaultValue) ==> ItemSafe(c.defaultValue.value) && Trimmed(c.defaultValue.value))
    && (Truthy(c.note) ==> ItemSafe(c.note.value) && '\'' !in c.note.value && '"' !in c.note.value)
    && (Truthy(c.refTable) ==> Word(c.refTable.value))
    && (Truthy(c.refColumn) ==> Word(c.refColumn.value))
  }

  /** A table without indexes, with a word name, a note that stays on its
      line and writable columns. */
  predicate TableWritable(t: Table) {
    Word(t.name) && t.indexes == [] && LineSafe(t.note)
    && forall j :: 0 <= j < |t.columns| ==> ColumnWritable(t.columns[j])
  }

  /** What the `icon:` pattern `[\w-]+` reads whole. */
  predicate IconWord(s: string) {
    |s| > 0 && forall i :: 0 <= i < |s| ==> IsIconChar(s[i])
  }

  /** What the `color:` pattern `#[0-9a-fA-F]{6}` reads whole. */
  predicate HexColour(s: string) {
    |s| == 7 && HexColorAt(s)
  }

  /** The style attributes a table's header carries, when styles are
      written, are ones the reader takes back. */
  predicate StyleWritable(t: Table, includeStyle: bool) {
    includeStyle ==>
      (Truthy(t.icon) && t.icon.value != "fa-table" ==> IconWord(t.icon.value))
      && (Truthy(t.color) ==> HexColour(t.color.value))
  }

  lemma WordSafe(w: string)
    requires AllWordChars(w)
    ensures ItemSafe(w) && ' ' !in w && ':' !in w && '(' !in w && '\'' !in w && '"' !in w
  {
    forall x | x in w
      ensures IsWordChar(x)
    {
      var i :| 0 <= i < |w| && w[i] == x;
    }
  }

  lemma WordTrimmed(w: string)
    requires Word(w)
    ensures Trimmed(w)
  {
    assert IsWordChar(w[0]) && IsWordChar(w[|w| - 1]);
  }

  // ---------------------------------------------------------------------
  // What comes back
  // ---------------------------------------------------------------------

  /** The column writes a `ref:` item. */
  predicate HasRef(c: Column) {
    c.fk || Truthy(c.refTable)
  }

  /** The record the reader builds from the items `generate` writes. */
  function ExpectedConstraints(c: Column): Constraints {
    Constraints(c.pk, c.pk && c.increment, (c.notNull && !c.pk) || HasRef(c), c.unique && !c.pk,
                if Truthy(c.defaultValue) then c.defaultValue else None,
                if HasRef(c) then Some(Ref(OrElse(c.refTable, "table"), OrElse(c.refColumn, "id"))) else None,
                if Truthy(c.note) then c.note else None)
  }

  /** The column the reader builds from the line `generate` writes. */
  function RecoveredColumn(c: Column): Column {
    Column(c.name, NormalizeType(Upper(c.typeName)), c.pk, c.pk && c.increment,
           (c.notNull && !c.pk) || HasRef(c), c.unique && !c.pk,
           if Truthy(c.defaultValue) then c.defaultValue else None,
           HasRef(c),
           if HasRef(c) then Some(OrElse(c.refTable, "table")) else None,
           if HasRef(c) then Some(OrElse(c.refColumn, "id")) else None,
           if Truthy(c.note) then c.note else None)
  }

  function RecoveredColumns(cols: seq<Column>): (r: seq<Column>)
    ensures |r| == |cols|
    ensures forall j :: 0 <= j < |cols| ==> r[j] == RecoveredColumn(cols[j])
  {
    seq(|cols|, j requires 0 <= j < |cols| => RecoveredColumn(cols[j]))
  }

  /** The table the reader builds: at the origin, unmeasured, with its note,
      and with the icon and colour the header carries: none without styles,
      and no icon for the default `fa-table`, which is not written. */
  function RecoveredTable(t: Table, includeStyle: bool): Table {
    Table(t.name, RecoveredColumns(t.columns), [], t.note,
          if includeStyle && Truthy(t.icon) && t.icon.value != "fa-table" then t.icon else None,
          if includeStyle && Truthy(t.color) then t.color else None,
          0.0, 0.0, None)
  }

  function Recovered(ts: seq<Table>, includeStyle: bool): (r: seq<Table>)
    ensures |r| == |ts|
    ensures forall i :: 0 <= i < |ts| ==> r[i] == RecoveredTable(ts[i], includeStyle)
  {
    seq(|ts|, i requires 0 <= i < |ts| => RecoveredTable(ts[i], includeStyle))
  }

  // ---------------------------------------------------------------------
  // Constraint lists
  // ---------------------------------------------------------------------

  /** The bracketed list as the column pattern's last group captures it. */
  function RestText(c: Column): string {
    var cs := ColumnConstraints(c);
    if |cs| > 0 then "[" + Join(cs, ", ") + "]" else ""
  }

  predicate GoodItems(items: seq<string>) {
    forall i :: 0 <= i < |items| ==> ItemSafe(items[i]) && Trimmed(items[i])
  }

  lemma GoodConcat(a: seq<string>, b: seq<string>)
    requires GoodItems(a) && GoodItems(b)
    ensures GoodItems(a + b)
  {
  }

  lemma GoodKeywords()
    ensures GoodItems(["pk"]) && GoodItems(["increment"]) && GoodItems(["not null"]) && GoodItems(["unique"])
  {
    LetterItem("pk");
    LetterItem("increment");
    LetterItem("not null");
    LetterItem("unique");
  }

  /** Lower-case words separated by single spaces. */
  lemma LetterItem(s: string)
    requires |s| > 0 && s[0] != ' ' && s[|s| - 1] != ' '
    requires forall i :: 0 <= i < |s| ==> 'a' <= s[i] <= 'z' || s[i] == ' '
    ensures GoodItems([s])
  {
    forall x | x in s
      ensures 'a' <= x <= 'z' || x == ' '
    {
      var i :| 0 <= i < |s| && s[i] == x;
    }
  }

  lemma GoodDefault(v: string)
    requires ItemSafe(v) && Trimmed(v)
    ensures GoodItems(["default: " + v])
  {
    var s := "default: " + v;
    assert s[0] == 'd' && s[|s| - 1] == v[|v| - 1];
  }

  lemma GoodRef(t: string, col: string)
    requires Word(t) && Word(col)
    ensures GoodItems(["ref: > " + t + "." + col])
  {
    WordSafe(t);
    WordSafe(col);
    var s := "ref: > " + t + "." + col;
    assert s[0] == 'r' && s[|s| - 1] == col[|col| - 1];
    assert IsWordChar(col[|col| - 1]);
  }

  lemma GoodNote(n: string)
    requires ItemSafe(n)
    ensures GoodItems(["note: '" + n + "'"])
  {
    var s := "note: '" + n + "'";
    assert s[0] == 'n' && s[|s| - 1] == '\'';
  }

  /** Every item of a writable column is plain and trimmed. */
  lemma ItemsGood(c: Column)
    requires ColumnWritable(c)
    ensures GoodItems(ColumnConstraints(c))
  {
    var p := if c.pk then [if c.increment then "increment" else "pk"] else [];
    var nn := if c.notNull && !c.pk then ["not null"] else [];
    var u := if c.unique && !c.pk then ["unique"] else [];
    var d := if Truthy(c.defaultValue) then ["default: " + c.defaultValue.value] else [];
    var r := if HasRef(c) then [RefItemText(c)] else [];
    var n := if Truthy(c.note) then ["note: '" + c.note.value + "'"] else [];
    KeyItemsGood(c);
    ValueItemsGood(c);
    assert ColumnConstraints(c) == p + nn + u + d + r + n;
    GoodSix(p, nn, u, d, r, n);
  }

  lemma GoodSix(p: seq<string>, nn: seq<string>, u: seq<string>, d: seq<string>, r: seq<string>, n: seq<string>)
    requires GoodItems(p) && GoodItems(nn) && GoodItems(u) && GoodItems(d) && GoodItems(r) && GoodItems(n)
    ensures GoodItems(p + nn + u + d + r + n)
  {
    GoodConcat(p, nn);
    GoodConcat(p + nn, u);
    GoodConcat(p + nn + u, d);
    GoodConcat(p + nn + u + d, r);
    GoodConcat(p + nn + u + d + r, n);
  }

  lemma KeyItemsGood(c: Column)
    ensures GoodItems(if c.pk then [if c.increment then "increment" else "pk"] else [])
    ensures GoodItems(if c.notNull && !c.pk then ["not null"] else [])
    ensures GoodItems(if c.unique && !c.pk then ["unique"] else [])
  {
    GoodKeywords();
  }

  lemma ValueItemsGood(c: Column)
    requires ColumnWritable(c)
    ensures GoodItems(if Truthy(c.defaultValue) then ["default: " + c.defaultValue.value] else [])
    ensures GoodItems(if HasRef(c) then [RefItemText(c)] else [])
    ensures GoodItems(if Truthy(c.note) then ["note: '" + c.note.value + "'"] else [])
  {
    if Truthy(c.defaultValue) {
      GoodDefault(c.defaultValue.value);
    }
    RefTargetWords(c);
    GoodRef(OrElse(c.refTable, "table"), OrElse(c.refColumn, "id"));
    if Truthy(c.note) {
      GoodNote(c.note.value);
    }
  }

  /** The target a `ref:` item names is two words. */
  lemma RefTargetWords(c: Column)
    requires ColumnWritable(c)
    ensures Word(OrElse(c.refTable, "table")) && Word(OrElse(c.refColumn, "id"))
  {
    assert Word("table") && Word("id");
  }

  lemma RemoveCharConcat(a: string, b: string, x: char)
    ensures RemoveChar(a + b, x) == RemoveChar(a, x) + RemoveChar(b, x)
  {
    if |a| == 0 {
      assert a + b == b;
    } else {
      assert (a + b)[0] == a[0];
      assert (a + b)[1..] == a[1..] + b;
      RemoveCharConcat(a[1..], b, x);
    }
  }

  lemma JoinAvoids(parts: seq<string>, sep: string, x: char)
    requires x !in sep && forall i :: 0 <= i < |parts| ==> x !in parts[i]
    ensures x !in Join(parts, sep)
  {
    if |parts| > 1 {
      JoinAvoids(parts[1..], sep, x);
    }
  }

  /** Items without brackets or commas, and the list they are joined into. */
  lemma JoinItemSafe(items: seq<string>)
    requires GoodItems(items)
    ensures LineSafe(Join(items, ", ")) && '[' !in Join(items, ", ") && ']' !in Join(items, ", ")
  {
    JoinAvoids(items, ", ", '\n');
    JoinAvoids(items, ", ", '\r');
    JoinAvoids(items, ", ", '\U{2028}');
    JoinAvoids(items, ", ", '\U{2029}');
    JoinAvoids(items, ", ", '/');
    JoinAvoids(items, ", ", '}');
    JoinAvoids(items, ", ", '[');
    JoinAvoids(items, ", ", ']');
  }

  /** `[...]` loses its brackets and splits back into its trimmed items. */
  lemma ItemsOfRest(items: seq<string>)
    requires |items| > 0 && GoodItems(items)
    ensures ConstraintItems("[" + Join(items, ", ") + "]") == items
  {
    var j := Join(items, ", ");
    JoinItemSafe(items);
    Unbracketed(j, "[" + j + "]");
    ItemsOfJoin("", items);
    assert "" + j == j;
  }

  lemma Unbracketed(j: string, s: string)
    requires '[' !in j && ']' !in j
    requires s == ['['] + (j + [']'])
    ensures RemoveChar(RemoveChar(s, '['), ']') == j
  {
    RemoveCharConcat(j, [']'], '[');
    RemoveCharAbsent(j, '[');
    assert s[1..] == j + [']'];
    assert RemoveChar(s, '[') == j + [']'];
    RemoveCharConcat(j, [']'], ']');
    RemoveCharAbsent(j, ']');
  }

  /** Splitting a `, `-joined list at its commas and trimming every piece
      gives the items back. */
  lemma {:induction false} ItemsOfJoin(pad: string, items: seq<string>)
    requires pad == "" || pad == " "
    requires |items| > 0 && GoodItems(items)
    ensures TrimAll(Split(pad + Join(items, ", "), ',')) == items
    decreases |items|
  {
    if |items| == 1 {
      ItemsOfOne(pad, items[0], pad + items[0]);
      assert Join(items, ", ") == items[0];
      assert items == [items[0]];
    } else {
      ItemsOfJoin(" ", items[1..]);
      ItemsOfMore(pad, items, Join(items[1..], ", "));
    }
  }

  /** A padded item has no comma and trims to itself. */
  lemma PadTrim(pad: string, x: string)
    requires pad == "" || pad == " "
    requires ItemSafe(x) && Trimmed(x)
    ensures Trim(pad + x) == x && ',' !in pad + x
  {
    assert forall y :: y in pad ==> IsSpace(y);
    TrimLeadingSpaces(pad, x);
  }

  lemma ItemsOfOne(pad: string, x: string, s: string)
    requires pad == "" || pad == " "
    requires ItemSafe(x) && Trimmed(x) && s == pad + x
    ensures TrimAll(Split(s, ',')) == [x]
  {
    PadTrim(pad, x);
    SplitNoSep(s, ',');
  }

  lemma ItemsOfMore(pad: string, items: seq<string>, tail: string)
    requires pad == "" || pad == " "
    requires |items| > 1 && GoodItems(items)
    requires tail == Join(items[1..], ", ")
    requires TrimAll(Split(" " + tail, ',')) == items[1..]
    ensures TrimAll(Split(pad + Join(items, ", "), ',')) == items
  {
    PadTrim(pad, items[0]);
    assert Join(items, ", ") == items[0] + ", " + tail;
    Regroup(pad, items[0], tail);
    SplitConcat(pad + items[0], ',', " " + tail);
    TrimAllCons(pad + items[0], Split(" " + tail, ','));
    ConsBack(items);
  }

  lemma Regroup(pad: string, a: string, b: string)
    ensures pad + (a + ", " + b) == (pad + a) + [','] + (" " + b)
  {
    assert ", " == [','] + " ";
  }

  lemma ConsBack(items: seq<string>)
    requires |items| > 0
    ensures [items[0]] + items[1..] == items
  {
  }

  lemma TrimAllCons(x: string, xs: seq<string>)
    ensures TrimAll([x] + xs) == [Trim(x)] + TrimAll(xs)
  {
  }

  // ---------------------------------------------------------------------
  // Constraint records
  // ---------------------------------------------------------------------

  lemma {:induction false} FoldConcat(r: Constraints, a: seq<string>, b: seq<string>)
    ensures FoldConstraints(r, a + b) == FoldConstraints(FoldConstraints(r, a), b)
    decreases |a|
  {
    if |a| > 0 {
      assert (a + b)[0] == a[0];
      assert (a + b)[1..] == a[1..] + b;
      FoldConcat(ApplyConstraint(r, a[0]), a[1..], b);
    } else {
      assert a + b == b;
    }
  }

  /** An optional item applies when it is there. */
  lemma FoldOptional(r: Constraints, b: bool, s: string)
    ensures FoldConstraints(r, if b then [s] else []) == if b then ApplyConstraint(r, s) else r
  {
    if b {
      assert [s][1..] == [];
    }
  }

  lemma FoldSix(r: Constraints, p: seq<string>, nn: seq<string>, u: seq<string>, d: seq<string>, rf: seq<string>, n: seq<string>)
    ensures FoldConstraints(r, p + nn + u + d + rf + n)
         == FoldConstraints(FoldConstraints(FoldConstraints(FoldConstraints(FoldConstraints(FoldConstraints(r, p), nn), u), d), rf), n)
  {
    FoldConcat(r, p + nn + u + d + rf, n);
    FoldConcat(r, p + nn + u + d, rf);
    FoldConcat(r, p + nn + u, d);
    FoldConcat(r, p + nn, u);
    FoldConcat(r, p, nn);
  }

  /** The key the column has: `increment`, or `pk` for a plain key. */
  lemma ApplyKey(r: Constraints, inc: bool)
    ensures ApplyConstraint(r, if inc then "increment" else "pk") == r.(pk := true, increment := inc || r.increment)
  {
    if inc {
      KindIncrement();
    } else {
      KindPk();
    }
  }

  lemma ApplyNotNull(r: Constraints)
    ensures ApplyConstraint(r, "not null") == r.(notNull := true)
  {
    KindNotNull();
  }

  lemma ApplyUnique(r: Constraints)
    ensures ApplyConstraint(r, "unique") == r.(unique := true)
  {
    KindUnique();
  }

  /** `default: v` gives back `v`. */
  lemma ApplyDefault(r: Constraints, v: string)
    requires Trimmed(v)
    ensures ApplyConstraint(r, "default: " + v) == r.(defaultValue := Some(v))
  {
    KindDefault(v);
    assert ("default: " + v)[8..] == " " + v;
    assert forall x :: x in " " ==> IsSpace(x);
    TrimLeadingSpaces(" ", v);
  }

  /** `ref: > t.col` gives back the target and sets `not null`. */
  lemma ApplyRef(r: Constraints, t: string, col: string)
    requires Word(t) && Word(col)
    ensures ApplyConstraint(r, "ref: > " + t + "." + col) == r.(ref := Some(Ref(t, col)), notNull := true)
  {
    KindRef(t, col);
    RefOfTarget(t, col);
  }

  /** `note: 'n'` gives back `n` when it holds no quotes. */
  lemma ApplyNote(r: Constraints, n: string)
    requires '\'' !in n && '"' !in n
    ensures ApplyConstraint(r, "note: '" + n + "'") == r.(note := Some(n))
  {
    KindNote(n);
    NoteTrim(n);
    QuotesOff(n);
    RemoveCharAbsent(n, '"');
  }

  /** The text after `note:` trims to the quoted note. */
  lemma NoteTrim(n: string)
    ensures |"note: '" + n + "'"| >= 5
    ensures Trim(("note: '" + n + "'")[5..]) == "'" + n + "'"
  {
    var q := "'" + n + "'";
    assert ("note: '" + n + "'")[5..] == " " + q;
    assert forall x :: x in " " ==> IsSpace(x);
    assert q[0] == '\'' && q[|q| - 1] == '\'';
    TrimLeadingSpaces(" ", q);
  }

  /** Dropping the quotes around a note without quotes gives the note. */
  lemma QuotesOff(n: string)
    requires '\'' !in n
    ensures RemoveChar("'" + n + "'", '\'') == n
  {
    Unquoted(n, "'" + n + "'");
  }

  lemma Unquoted(n: string, q: string)
    requires '\'' !in n
    requires q == ['\''] + (n + ['\''])
    ensures RemoveChar(q, '\'') == n
  {
    RemoveCharConcat(n, ['\''], '\'');
    RemoveCharAbsent(n, '\'');
    assert q[1..] == n + ['\''];
  }

  /** `parseConstraints` reads back what `generate` writes in a column's
      bracketed list: the key flags (an `increment` key stays a key, and the
      other flags of a key column are not written), the default, the
      reference target with its defaults filled in (a reference also sets
      `not null`) and the note. */
  lemma ConstraintsRoundTrip(c: Column)
    requires ColumnWritable(c)
    ensures ParsedConstraints(RestText(c)) == ExpectedConstraints(c)
  {
    if |ColumnConstraints(c)| == 0 {
      NoItems(c);
    } else {
      SomeItems(c);
    }
  }

  /** A column with nothing to write reads back with the defaults. */
  lemma NoItems(c: Column)
    requires |ColumnConstraints(c)| == 0
    ensures RestText(c) == "" && ExpectedConstraints(c) == NoConstraints
  {
  }

  lemma SomeItems(c: Column)
    requires ColumnWritable(c) && |ColumnConstraints(c)| > 0
    ensures ParsedConstraints(RestText(c)) == ExpectedConstraints(c)
  {
    var cs := ColumnConstraints(c);
    ItemsGood(c);
    ItemsOfRest(cs);
    RefTargetWords(c);
    FoldItems(c, cs);
    assert RestText(c) == "[" + Join(cs, ", ") + "]";
  }

  /** The items of a column, applied in order, give the expected record. */
  lemma FoldItems(c: Column, cs: seq<string>)
    requires cs == ColumnConstraints(c)
    requires Truthy(c.defaultValue) ==> Trimmed(c.defaultValue.value)
    requires Truthy(c.note) ==> '\'' !in c.note.value && '"' !in c.note.value
    requires Word(OrElse(c.refTable, "table")) && Word(OrElse(c.refColumn, "id"))
    ensures FoldConstraints(NoConstraints, cs) == ExpectedConstraints(c)
  {
    var p := if c.pk then [if c.increment then "increment" else "pk"] else [];
    var nn := if c.notNull && !c.pk then ["not null"] else [];
    var u := if c.unique && !c.pk then ["unique"] else [];
    var d := if Truthy(c.defaultValue) then ["default: " + c.defaultValue.value] else [];
    var rf := if HasRef(c) then [RefItemText(c)] else [];
    var n := if Truthy(c.note) then ["note: '" + c.note.value + "'"] else [];
    assert cs == p + nn + u + d + rf + n;
    FoldSix(NoConstraints, p, nn, u, d, rf, n);
    FoldStages(c, p, nn, u, d, rf, n);
  }

  lemma FoldStages(c: Column, p: seq<string>, nn: seq<string>, u: seq<string>, d: seq<string>, rf: seq<string>, n: seq<string>)
    requires Truthy(c.defaultValue) ==> Trimmed(c.defaultValue.value)
    requires Truthy(c.note) ==> '\'' !in c.note.value && '"' !in c.note.value
    requires Word(OrElse(c.refTable, "table")) && Word(OrElse(c.refColumn, "id"))
    requires p == if c.pk then [if c.increment then "increment" else "pk"] else []
    requires nn == if c.notNull && !c.pk then ["not null"] else []
    requires u == if c.unique && !c.pk then ["unique"] else []
    requires d == if Truthy(c.defaultValue) then ["default: " + c.defaultValue.value] else []
    requires rf == if HasRef(c) then [RefItemText(c)] else []
    requires n == if Truthy(c.note) then ["note: '" + c.note.value + "'"] else []
    ensures FoldConstraints(FoldConstraints(FoldConstraints(FoldConstraints(FoldConstraints(FoldConstraints(NoConstraints, p), nn), u), d), rf), n)
         == ExpectedConstraints(c)
  {
    var t := OrElse(c.refTable, "table");
    var col := OrElse(c.refColumn, "id");
    var r3 := StageKeys(c.pk, c.increment, c.notNull, c.unique, p, nn, u);
    var r4 := StageDefault(r3, c.defaultValue, d);
    var r5 := StageRef(r4, HasRef(c), t, col, rf);
    var r6 := StageNote(r5, c.note, n);
  }

  /** The keyword items build the key flags. */
  lemma StageKeys(pk: bool, inc: bool, notNull: bool, unique: bool, p: seq<string>, nn: seq<string>, u: seq<string>)
    returns (r: Constraints)
    requires p == if pk then [if inc then "increment" else "pk"] else []
    requires nn == if notNull && !pk then ["not null"] else []
    requires u == if unique && !pk then ["unique"] else []
    ensures r == Constraints(pk, pk && inc, notNull && !pk, unique && !pk, None, None, None)
    ensures FoldConstraints(FoldConstraints(FoldConstraints(NoConstraints, p), nn), u) == r
  {
    var r1 := NoConstraints.(pk := pk, increment := pk && inc);
    var r2 := r1.(notNull := notNull && !pk);
    r := r2.(unique := unique && !pk);
    ApplyKey(NoConstraints, inc);
    ApplyNotNull(r1);
    ApplyUnique(r2);
    FoldOptional(NoConstraints, pk, if inc then "increment" else "pk");
    FoldOptional(r1, notNull && !pk, "not null");
    FoldOptional(r2, unique && !pk, "unique");
  }

  lemma StageDefault(r: Constraints, dv: Option<string>, d: seq<string>) returns (r': Constraints)
    requires r.defaultValue == None
    requires Truthy(dv) ==> Trimmed(dv.value)
    requires d == if Truthy(dv) then ["default: " + dv.value] else []
    ensures r' == r.(defaultValue := if Truthy(dv) then dv else None)
    ensures FoldConstraints(r, d) == r'
  {
    r' := r.(defaultValue := if Truthy(dv) then dv else None);
    if Truthy(dv) {
      ApplyDefault(r, dv.value);
      FoldOptional(r, true, "default: " + dv.value);
    } else {
      FoldOptional(r, false, "");
    }
  }

  lemma StageRef(r: Constraints, b: bool, t: string, col: string, rf: seq<string>) returns (r': Constraints)
    requires Word(t) && Word(col)
    requires rf == if b then ["ref: > " + t + "." + col] else []
    ensures r' == if b then r.(ref := Some(Ref(t, col)), notNull := true) else r
    ensures FoldConstraints(r, rf) == r'
  {
    r' := if b then r.(ref := Some(Ref(t, col)), notNull := true) else r;
    ApplyRef(r, t, col);
    FoldOptional(r, b, "ref: > " + t + "." + col);
  }

  lemma StageNote(r: Constraints, note: Option<string>, n: seq<string>) returns (r': Constraints)
    requires r.note == None
    requires Truthy(note) ==> '\'' !in note.value && '"' !in note.value
    requires n == if Truthy(note) then ["note: '" + note.value + "'"] else []
    ensures r' == r.(note := if Truthy(note) then note else None)
    ensures FoldConstraints(r, n) == r'
  {
    r' := r.(note := if Truthy(note) then note else None);
    if Truthy(note) {
      ApplyNote(r, note.value);
      FoldOptional(r, true, "note: '" + note.value + "'");
    } else {
      FoldOptional(r, false, "");
    }
  }

  // ---------------------------------------------------------------------
  // Column lines
  // ---------------------------------------------------------------------

  /** A column line without its indentation and line break. */
  function CoreLine(c: Column): string {
    c.name + " " + c.typeName + ConstraintSuffix(c)
  }

  /** What follows the type: nothing, or a space and the bracketed list. */
  function Tail(rest: string): string {
    if rest == "" then "" else " " + rest
  }

  lemma SuffixTail(c: Column)
    ensures ConstraintSuffix(c) == Tail(RestText(c))
    ensures RestText(c) != "" ==> RestText(c)[0] == '['
  {
  }

  /** Where the pieces of a column line `name type tail` sit. */
  predicate Layout(line: string, name: string, t: string, tail: string) {
    |line| == |name| + 1 + |t| + |tail|
    && line[..|name|] == name
    && line[|name|] == ' '
    && line[|name| + 1..|name| + 1 + |t|] == t
    && line[|name| + 1 + |t|..] == tail
  }

  lemma LineLayout(name: string, t: string, tail: string, line: string)
    requires line == name + " " + t + tail
    ensures Layout(line, name, t, tail)
  {
  }

  /** The name group takes the name and stops at the space. */
  lemma NameEnds(line: string, name: string)
    requires Word(name) && |name| < |line| && line[|name|] == ' '
    requires line[..|name|] == name
    ensures SkipWord(line, 0) == |name|
  {
    forall k | 0 <= k < |name|
      ensures IsWordChar(line[k])
    {
      assert line[k] == line[..|name|][k] == name[k];
    }
    SkipWordTo(line, 0, |name|);
  }

  lemma WordNotSpace(c: char)
    requires IsWordChar(c)
    ensures !IsSpace(c)
  {
  }

  /** One space separates the name from the type. */
  lemma SpaceEnds(line: string, n: nat)
    requires n + 1 < |line| && line[n] == ' ' && IsWordChar(line[n + 1])
    ensures SkipSpaces(line, n) == n + 1
  {
    WordNotSpace(line[n + 1]);
    SkipSpacesTo(line, n, n + 1);
  }

  /** The type word of the line is the type's own word. */
  lemma TypeWordEnds(line: string, t: string, a: nat, e: nat)
    requires TypeWritable(t) && e == a + |t| && e <= |line|
    requires line[a..e] == t
    requires e < |line| ==> line[e] == ' '
    ensures SkipWord(line, a) == a + SkipWord(t, 0)
  {
    var w := SkipWord(t, 0);
    SkipWordChars(t, 0);
    forall k | a <= k < a + w
      ensures IsWordChar(line[k])
    {
      assert line[k] == line[a..e][k - a] == t[k - a];
    }
    if w < |t| {
      assert line[a + w] == line[a..e][w] == t[w];
    }
    SkipWordTo(line, a, a + w);
  }

  /** The type group ends where the type does. */
  lemma TypeGroupEnds(line: string, t: string, a: nat, e: nat)
    requires TypeWritable(t) && e == a + |t| && e <= |line|
    requires line[a..e] == t
    requires e < |line| ==> line[e] == ' '
    ensures TypeEnd(line, a + SkipWord(t, 0)) == e
  {
    var w := SkipWord(t, 0);
    if w < |t| {
      SizedTypeEnds(line, t, a, w, e);
    }
  }

  /** A sized type's group runs to its closing parenthesis. */
  lemma SizedTypeEnds(line: string, t: string, a: nat, w: nat, e: nat)
    requires e == a + |t| && e <= |line| && line[a..e] == t
    requires |t| >= w + 3 && t[w] == '(' && t[|t| - 1] == ')' && ')' !in t[w + 1..|t| - 1]
    ensures TypeEnd(line, a + w) == e
  {
    var b := a + w;
    var k := |t| - w - 2;
    var s := line[b + 1..];
    assert line[b] == line[a..e][w];
    assert s[k] == line[b + 1 + k] == line[a..e][|t| - 1];
    assert s[..k] == t[w + 1..|t| - 1] by {
      assert s[..k] == line[b + 1..e - 1];
      assert line[b + 1..e - 1] == line[a..e][w + 1..|t| - 1];
    }
    IndexOfFirst(s, ')', k);
  }

  /** The last group starts after the one space before the bracketed list. */
  lemma RestStarts(line: string, e: nat, rest: string)
    requires e <= |line| && line[e..] == Tail(rest)
    requires rest != "" ==> rest[0] == '['
    ensures SkipSpaces(line, e) == (if rest == "" then e else e + 1)
    ensures line[SkipSpaces(line, e)..] == rest
  {
    if rest == "" {
      SkipSpacesTo(line, e, e);
    } else {
      assert line[e] == line[e..][0] == ' ';
      assert line[e + 1] == line[e..][1] == '[';
      SkipSpacesTo(line, e, e + 1);
      assert line[e + 1..] == line[e..][1..];
    }
  }

  /** The column pattern's groups, put together from where each ends. */
  lemma MatchCompose(line: string, n: nat, a: nat, b: nat, e: nat, f: nat, name: string, t: string, rest: string)
    requires SkipWord(line, 0) == n && n > 0
    requires a <= |line| && SkipSpaces(line, n) == a && a > n
    requires b <= |line| && SkipWord(line, a) == b && b > a
    requires TypeEnd(line, b) == e
    requires e <= |line| && SkipSpaces(line, e) == f
    requires f <= |line| && !HasLineBreak(line[f..])
    requires line[..n] == name && line[a..e] == t && line[f..] == rest
    ensures MatchColumn(line) == Some(ColumnText(name, t, rest))
  {
  }

  /** The column pattern splits a written column line into its name, its
      type and its bracketed list. */
  lemma MatchColumnText(name: string, t: string, rest: string)
    requires Word(name) && TypeWritable(t) && NoBreak(rest)
    requires rest != "" ==> rest[0] == '['
    ensures MatchColumn(name + " " + t + Tail(rest)) == Some(ColumnText(name, t, rest))
  {
    var line := name + " " + t + Tail(rest);
    LineLayout(name, t, Tail(rest), line);
    MatchLaid(line, name, t, rest);
  }

  lemma MatchLaid(line: string, name: string, t: string, rest: string)
    requires Word(name) && TypeWritable(t) && NoBreak(rest)
    requires rest != "" ==> rest[0] == '['
    requires Layout(line, name, t, Tail(rest))
    ensures MatchColumn(line) == Some(ColumnText(name, t, rest))
  {
    var a := |name| + 1;
    var b, e := a + SkipWord(t, 0), a + |t|;
    HeadPositions(line, name, t, Tail(rest));
    TypePositions(line, name, t, rest, a, b, e);
    HasLineBreakIn(rest);
    MatchCompose(line, |name|, a, b, e, SkipSpaces(line, e), name, t, rest);
  }

  /** Where the name group and the spaces after it end. */
  lemma HeadPositions(line: string, name: string, t: string, tail: string)
    requires Word(name) && TypeWritable(t)
    requires Layout(line, name, t, tail)
    ensures SkipWord(line, 0) == |name| && SkipSpaces(line, |name|) == |name| + 1
  {
    NameEnds(line, name);
    assert line[|name| + 1] == line[|name| + 1..|name| + 1 + |t|][0] == t[0];
    SpaceEnds(line, |name|);
  }

  /** Where the type word, the type group and the spaces after it end. */
  lemma TypePositions(line: string, name: string, t: string, rest: string, a: nat, b: nat, e: nat)
    requires TypeWritable(t)
    requires rest != "" ==> rest[0] == '['
    requires Layout(line, name, t, Tail(rest))
    requires a == |name| + 1 && b == a + SkipWord(t, 0) && e == a + |t|
    ensures e <= |line| && SkipWord(line, a) == b && TypeEnd(line, b) == e
    ensures line[a..e] == t && line[SkipSpaces(line, e)..] == rest
  {
    assert e < |line| ==> line[e] == Tail(rest)[0] by {
      if e < |line| {
        assert line[e] == line[e..][0];
      }
    }
    TypeWordEnds(line, t, a, e);
    TypeGroupEnds(line, t, a, e);
    RestStarts(line, e, rest);
  }
}
