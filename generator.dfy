/** The two writers of `parser.js`: `generate`, which prints the schema back
    as diagram text, and `generateSQL`, which prints `CREATE TABLE`
    statements, together with the `sqlType` lookup the latter uses. */
module Generator {
  import opened Wrappers
  import opened Text
  import opened Schema
  import opened Parser

  /** `o || d` on an optional string. */
  function OrElse(o: Option<string>, d: string): (r: string)
    ensures Truthy(o) ==> r == o.value
    ensures !Truthy(o) ==> r == d
  {
    if Truthy(o) then o.value else d
  }

  // ---------------------------------------------------------------------
  // Diagram text
  // ---------------------------------------------------------------------

  /** The bracketed header attributes: an icon other than the default
      `fa-table`, then a colour, and neither when styles are excluded. */
  function StyleAttrs(t: Table, includeStyle: bool): (r: seq<string>)
    ensures !includeStyle ==> r == []
    ensures forall i :: 0 <= i < |r| ==> r[i] != "icon: fa-table"
  {
    var icon := if Truthy(t.icon) && t.icon.value != "fa-table" then ["icon: " + t.icon.value] else [];
    var color := if Truthy(t.color) then ["color: " + t.color.value] else [];
    if includeStyle then
      IconAttrFacts(t.icon);
      assert "color: " + OrElse(t.color, "") != "icon: fa-table" by {
        IconColorDistinct("fa-table", OrElse(t.color, ""));
      }
      icon + color
    else []
  }

  /** The header names the table's icon exactly when styles are included and
      the icon is set and not the default, and its colour exactly when
      styles are included and the colour is set. */
  lemma StyleAttrsContents(t: Table, includeStyle: bool)
    ensures var r := StyleAttrs(t, includeStyle);
            (exists i :: 0 <= i < |r| && r[i] == "icon: " + OrElse(t.icon, ""))
            <==> includeStyle && Truthy(t.icon) && t.icon.value != "fa-table"
    ensures var r := StyleAttrs(t, includeStyle);
            (exists i :: 0 <= i < |r| && r[i] == "color: " + OrElse(t.color, ""))
            <==> includeStyle && Truthy(t.color)
  {
    var r := StyleAttrs(t, includeStyle);
    var v := OrElse(t.icon, "");
    var w := OrElse(t.color, "");
    var hasIcon := includeStyle && Truthy(t.icon) && t.icon.value != "fa-table";
    var hasColor := includeStyle && Truthy(t.color);
    IconColorDistinct(v, w);
    if includeStyle {
      assert r == (if hasIcon then ["icon: " + v] else []) + (if hasColor then ["color: " + w] else []);
      if hasIcon {
        assert r[0] == "icon: " + v;
      } else {
        assert forall i :: 0 <= i < |r| ==> r[i] == "color: " + w;
      }
      if hasColor {
        assert r[|r| - 1] == "color: " + w;
      } else {
        assert forall i :: 0 <= i < |r| ==> r[i] == "icon: " + v;
      }
    }
  }

  /** The icon attribute names its icon, so it is `icon: fa-table` only for
      that icon. */
  lemma IconAttrFacts(icon: Option<string>)
    ensures forall v :: "icon: " + v == "icon: fa-table" ==> v == "fa-table"
  {
    forall v | "icon: " + v == "icon: fa-table"
      ensures v == "fa-table"
    {
      assert v == ("icon: " + v)[6..];
    }
  }

  lemma IconColorDistinct(v: string, w: string)
    ensures "icon: " + v != "color: " + w
  {
    assert ("icon: " + v)[0] == 'i';
    assert ("color: " + w)[0] == 'c';
  }

  function TableHeader(t: Table, includeStyle: bool): string {
    var attrs := StyleAttrs(t, includeStyle);
    "Table " + t.name + (if |attrs| > 0 then " [" + Join(attrs, ", ") + "]" else "") + " {\n"
  }

  /** Without styles the header is the bare table line. */
  lemma HeaderWithoutStyle(t: Table)
    ensures TableHeader(t, false) == "Table " + t.name + " {\n"
  {
  }

  /** The `ref:` item of a column: the referenced table (`table` when
      unset) and column (`id` when unset). */
  function RefItemText(c: Column): string {
    "ref: > " + OrElse(c.refTable, "table") + "." + OrElse(c.refColumn, "id")
  }

  /** The constraint items of a column, in their fixed order. */
  function ColumnConstraints(c: Column): seq<string> {
    (if c.pk then [if c.increment then "increment" else "pk"] else [])
    + (if c.notNull && !c.pk then ["not null"] else [])
    + (if c.unique && !c.pk then ["unique"] else [])
    + (if Truthy(c.defaultValue) then ["default: " + c.defaultValue.value] else [])
    + (if c.fk || Truthy(c.refTable) then [RefItemText(c)] else [])
    + (if Truthy(c.note) then ["note: '" + c.note.value + "'"] else [])
  }

  function ConstraintSuffix(c: Column): string {
    var cs := ColumnConstraints(c);
    if |cs| > 0 then " [" + Join(cs, ", ") + "]" else ""
  }

  function ColumnLine(c: Column): string {
    "  " + c.name + " " + c.typeName + ConstraintSuffix(c) + "\n"
  }

  function ColumnsText(cols: seq<Column>): string
    decreases |cols|
  {
    if |cols| == 0 then "" else ColumnLine(cols[0]) + ColumnsText(cols[1..])
  }

  function IndexText(idx: seq<string>): string {
    "    (" + Join(idx, ", ") + ")\n"
  }

  function IndexesText(idxs: seq<seq<string>>): string
    decreases |idxs|
  {
    if |idxs| == 0 then "" else IndexText(idxs[0]) + IndexesText(idxs[1..])
  }

  function IndexBlock(idxs: seq<seq<string>>): string {
    if |idxs| > 0 then "\n  Indexes {\n" + IndexesText(idxs) + "  }\n" else ""
  }

  function NoteBlock(note: string): string {
    if note != "" then "\n  note: '" + note + "'\n" else ""
  }

  function TableBlock(t: Table, includeStyle: bool): string {
    TableHeader(t, includeStyle) + ColumnsText(t.columns) + IndexBlock(t.indexes) + NoteBlock(t.note) + "}\n\n"
  }

  /** `DBPARSER.generate`; its `relationships` argument is never read. */
  function DslText(tables: seq<Table>, includeStyle: bool): string
    decreases |tables|
  {
    if |tables| == 0 then "" else TableBlock(tables[0], includeStyle) + DslText(tables[1..], includeStyle)
  }

  /** `DBPARSER.generate` as the accumulating loops it is. */
  method Generate(tables: seq<Table>, includeStyle: bool) returns (output: string)
    ensures output == DslText(tables, includeStyle)
  {
    output := "";
    var i := 0;
    DslStart(tables, includeStyle);
    while i < |tables|
      invariant 0 <= i <= |tables|
      invariant output + DslText(tables[i..], includeStyle) == DslText(tables, includeStyle)
    {
      var block := GenerateTable(tables[i], includeStyle);
      DslStep(output, tables, i, includeStyle);
      output := output + block;
      i := i + 1;
    }
    DslEnd(output, tables, includeStyle);
  }

  lemma DslStart(tables: seq<Table>, includeStyle: bool)
    ensures "" + DslText(tables[0..], includeStyle) == DslText(tables, includeStyle)
  {
    assert tables[0..] == tables;
  }

  lemma DslEnd(output: string, tables: seq<Table>, includeStyle: bool)
    requires output + DslText(tables[|tables|..], includeStyle) == DslText(tables, includeStyle)
    ensures output == DslText(tables, includeStyle)
  {
    assert tables[|tables|..] == [];
  }

  lemma DslStep(output: string, tables: seq<Table>, i: nat, includeStyle: bool)
    requires i < |tables|
    requires output + DslText(tables[i..], includeStyle) == DslText(tables, includeStyle)
    ensures (output + TableBlock(tables[i], includeStyle)) + DslText(tables[i + 1..], includeStyle)
            == DslText(tables, includeStyle)
  {
    var ts := tables[i..];
    assert ts[1..] == tables[i + 1..] && ts[0] == tables[i];
    DslUnfold(ts, includeStyle);
    Reassociate(output, TableBlock(tables[i], includeStyle), DslText(tables[i + 1..], includeStyle));
  }

  lemma DslUnfold(ts: seq<Table>, includeStyle: bool)
    requires |ts| > 0
    ensures DslText(ts, includeStyle) == TableBlock(ts[0], includeStyle) + DslText(ts[1..], includeStyle)
  {
  }

  lemma Reassociate(a: string, b: string, c: string)
    ensures (a + b) + c == a + (b + c)
  {
  }

  /** The body of the loop of `generate` for one table. */
  method GenerateTable(t: Table, includeStyle: bool) returns (s: string)
    ensures s == TableBlock(t, includeStyle)
  {
    var header := TableHeader(t, includeStyle);
    var lines := GenerateColumns(t.columns);
    var indexes := "";
    if |t.indexes| > 0 {
      var entries := GenerateIndexes(t.indexes);
      indexes := "\n  Indexes {\n" + entries + "  }\n";
    }
    var note := "";
    if t.note != "" {
      note := "\n  note: '" + t.note + "'\n";
    }
    s := header + lines + indexes + note + "}\n\n";
  }

  /** The column loop of `generate`. */
  method GenerateColumns(cols: seq<Column>) returns (s: string)
    ensures s == ColumnsText(cols)
  {
    s := "";
    var j := 0;
    assert cols[0..] == cols;
    while j < |cols|
      invariant 0 <= j <= |cols|
      invariant s + ColumnsText(cols[j..]) == ColumnsText(cols)
    {
      ColumnsStep(s, cols, j);
      s := s + ColumnLine(cols[j]);
      j := j + 1;
    }
    ColumnsEnd(s, cols);
  }

  lemma ColumnsStep(s: string, cols: seq<Column>, j: nat)
    requires j < |cols|
    requires s + ColumnsText(cols[j..]) == ColumnsText(cols)
    ensures (s + ColumnLine(cols[j])) + ColumnsText(cols[j + 1..]) == ColumnsText(cols)
  {
    var cs := cols[j..];
    assert cs[1..] == cols[j + 1..] && cs[0] == cols[j];
    ColumnsUnfold(cs);
    Reassociate(s, ColumnLine(cols[j]), ColumnsText(cols[j + 1..]));
  }

  lemma ColumnsUnfold(cs: seq<Column>)
    requires |cs| > 0
    ensures ColumnsText(cs) == ColumnLine(cs[0]) + ColumnsText(cs[1..])
  {
  }

  lemma ColumnsEnd(s: string, cols: seq<Column>)
    requires s + ColumnsText(cols[|cols|..]) == ColumnsText(cols)
    ensures s == ColumnsText(cols)
  {
    assert cols[|cols|..] == [];
  }

  /** The index loop of `generate`. */
  method GenerateIndexes(idxs: seq<seq<string>>) returns (s: string)
    ensures s == IndexesText(idxs)
  {
    s := "";
    var k := 0;
    assert idxs[0..] == idxs;
    while k < |idxs|
      invariant 0 <= k <= |idxs|
      invariant s + IndexesText(idxs[k..]) == IndexesText(idxs)
    {
      IndexesStep(s, idxs, k);
      s := s + IndexText(idxs[k]);
      k := k + 1;
    }
    IndexesEnd(s, idxs);
  }

  lemma IndexesStep(s: string, idxs: seq<seq<string>>, k: nat)
    requires k < |idxs|
    requires s + IndexesText(idxs[k..]) == IndexesText(idxs)
    ensures (s + IndexText(idxs[k])) + IndexesText(idxs[k + 1..]) == IndexesText(idxs)
  {
    var xs := idxs[k..];
    assert xs[1..] == idxs[k + 1..] && xs[0] == idxs[k];
    Reassociate(s, IndexText(idxs[k]), IndexesText(idxs[k + 1..]));
  }

  lemma IndexesEnd(s: string, idxs: seq<seq<string>>)
    requires s + IndexesText(idxs[|idxs|..]) == IndexesText(idxs)
    ensures s == IndexesText(idxs)
  {
    assert idxs[|idxs|..] == [];
  }

  // ---------------------------------------------------------------------
  // The order of the constraint items, as the parser classifies them
  // ---------------------------------------------------------------------

  /** How the reader classifies each item. */
  function ItemKinds(items: seq<string>): (ks: seq<ItemKind>)
    ensures |ks| == |items|
    ensures forall i :: 0 <= i < |items| ==> ks[i] == KindOf(items[i])
  {
    seq(|items|, i requires 0 <= i < |items| => KindOf(items[i]))
  }

  /** The position of each kind in the order `generate` writes them. */
  function Rank(k: ItemKind): nat {
    match k
    case PkItem => 0
    case IncrementItem => 0
    case NotNullItem => 1
    case UniqueItem => 2
    case DefaultItem => 3
    case RefItem => 4
    case NoteItem => 5
    case OtherItem => 6
  }

  lemma KindPk()
    ensures KindOf("pk") == PkItem
  {
    KeywordKind("pk", PkItem);
  }

  lemma KindIncrement()
    ensures KindOf("increment") == IncrementItem
  {
    KeywordKind("increment", IncrementItem);
  }

  lemma KindNotNull()
    ensures KindOf("not null") == NotNullItem
  {
    KeywordKind("not null", NotNullItem);
  }

  lemma KindUnique()
    ensures KindOf("unique") == UniqueItem
  {
    KeywordKind("unique", UniqueItem);
  }

  /** A keyword written in lower case is classified by its own text. */
  lemma KeywordKind(c: string, k: ItemKind)
    requires forall i :: 0 <= i < |c| ==> !('A' <= c[i] <= 'Z')
    requires KindOfLower(c) == k
    ensures KindOf(c) == k
  {
    LowerNoUpper(c);
  }

  /** An item whose lower-case form starts with `d`, `r` or `n` is none of
      the exact keywords except possibly `not null`. */
  lemma NotKeyword(lower: string)
    requires |lower| > 0 && (lower[0] == 'd' || lower[0] == 'r' || lower[0] == 'n')
    ensures lower != "pk" && lower != "primary key" && lower != "increment"
    ensures lower != "auto_increment" && lower != "autoincrement" && lower != "unique"
  {
    assert "pk"[0] == 'p' && "primary key"[0] == 'p' && "increment"[0] == 'i';
    assert "auto_increment"[0] == 'a' && "autoincrement"[0] == 'a' && "unique"[0] == 'u';
  }

  lemma KindDefault(v: string)
    ensures KindOf("default: " + v) == DefaultItem
  {
    LowerPrefix("default: ", v);
    PrefixSlice("default: ", "default:", Lower(v));
    DefaultLower("default: " + Lower(v));
  }

  lemma KindRef(t: string, col: string)
    ensures KindOf("ref: > " + t + "." + col) == RefItem
  {
    var tail := t + "." + col;
    assert "ref: > " + t + "." + col == "ref: > " + tail;
    LowerPrefix("ref: > ", tail);
    PrefixSlice("ref: > ", "ref:", Lower(tail));
    RefLower("ref: > " + Lower(tail));
  }

  lemma KindNote(n: string)
    ensures KindOf("note: '" + n + "'") == NoteItem
  {
    var tail := n + "'";
    assert "note: '" + n + "'" == "note: '" + tail;
    LowerPrefix("note: '", tail);
    PrefixSlice("note: '", "note:", Lower(tail));
    NoteLower("note: '" + Lower(tail));
  }

  /** Lower-casing keeps a prefix that has no capitals. */
  lemma LowerPrefix(p: string, tail: string)
    requires forall i :: 0 <= i < |p| ==> !('A' <= p[i] <= 'Z')
    ensures Lower(p + tail) == p + Lower(tail)
  {
    LowerConcat(p, tail);
    LowerNoUpper(p);
  }

  lemma PrefixSlice(p: string, q: string, tail: string)
    requires StartsWith(p, q)
    ensures StartsWith(p + tail, q)
  {
    assert (p + tail)[..|q|] == p[..|q|];
  }

  lemma DefaultLower(lower: string)
    requires StartsWith(lower, "default:")
    ensures KindOfLower(lower) == DefaultItem
  {
    assert lower[0] == "default:"[0] == 'd';
    NotKeyword(lower);
    assert lower != "not null" by { assert "not null"[0] == 'n'; }
  }

  lemma RefLower(lower: string)
    requires StartsWith(lower, "ref:")
    ensures KindOfLower(lower) == RefItem
  {
    assert lower[0] == "ref:"[0] == 'r';
    NotKeyword(lower);
    assert lower != "not null" by { assert "not null"[0] == 'n'; }
    assert !StartsWith(lower, "default:") by { assert "default:"[0] == 'd'; }
  }

  lemma NoteLower(lower: string)
    requires StartsWith(lower, "note:")
    ensures KindOfLower(lower) == NoteItem
  {
    assert lower[..5] == "note:";
    assert lower[0] == 'n' && lower[3] == 'e';
    NotKeyword(lower);
    assert lower != "not null" by { assert "not null"[3] == ' '; }
    assert !StartsWith(lower, "default:") by { assert "default:"[0] == 'd'; }
    assert !StartsWith(lower, "ref:") && !StartsWith(lower, "references:") by {
      assert "ref:"[0] == 'r' && "references:"[0] == 'r';
    }
  }

  /** The kinds `generate` means to write for a column. */
  function IntendedKinds(c: Column): seq<ItemKind> {
    Opt(c.pk, if c.increment then IncrementItem else PkItem)
    + Opt(c.notNull && !c.pk, NotNullItem)
    + Opt(c.unique && !c.pk, UniqueItem)
    + Opt(Truthy(c.defaultValue), DefaultItem)
    + Opt(c.fk || Truthy(c.refTable), RefItem)
    + Opt(Truthy(c.note), NoteItem)
  }

  /** `[k]` when `b` holds, otherwise nothing. */
  function Opt(b: bool, k: ItemKind): (r: seq<ItemKind>)
    ensures |r| <= 1
    ensures forall x :: x in r <==> b && x == k
    ensures forall i :: 0 <= i < |r| ==> Rank(r[i]) == Rank(k)
  {
    if b then [k] else []
  }

  lemma ItemKindsConcat(a: seq<string>, b: seq<string>)
    ensures ItemKinds(a + b) == ItemKinds(a) + ItemKinds(b)
  {
  }

  /** Every item `generate` writes is read back by the parser as the kind it
      stands for. */
  lemma ConstraintKinds(c: Column)
    ensures ItemKinds(ColumnConstraints(c)) == IntendedKinds(c)
  {
    KeywordKinds(c);
    ValueKinds(c);
    ConcatKinds(if c.pk then [if c.increment then "increment" else "pk"] else [],
                if c.notNull && !c.pk then ["not null"] else [],
                if c.unique && !c.pk then ["unique"] else [],
                if Truthy(c.defaultValue) then ["default: " + c.defaultValue.value] else [],
                if c.fk || Truthy(c.refTable) then [RefItemText(c)] else [],
                if Truthy(c.note) then ["note: '" + c.note.value + "'"] else []);
  }

  lemma ConcatKinds(p: seq<string>, nn: seq<string>, u: seq<string>, d: seq<string>, r: seq<string>, n: seq<string>)
    ensures ItemKinds(p + nn + u + d + r + n)
            == ItemKinds(p) + ItemKinds(nn) + ItemKinds(u) + ItemKinds(d) + ItemKinds(r) + ItemKinds(n)
  {
    ItemKindsConcat(p + nn + u + d + r, n);
    ItemKindsConcat(p + nn + u + d, r);
    ItemKindsConcat(p + nn + u, d);
    ItemKindsConcat(p + nn, u);
    ItemKindsConcat(p, nn);
  }

  lemma KeywordKinds(c: Column)
    ensures ItemKinds(if c.pk then [if c.increment then "increment" else "pk"] else [])
            == Opt(c.pk, if c.increment then IncrementItem else PkItem)
    ensures ItemKinds(if c.notNull && !c.pk then ["not null"] else [])
            == Opt(c.notNull && !c.pk, NotNullItem)
    ensures ItemKinds(if c.unique && !c.pk then ["unique"] else [])
            == Opt(c.unique && !c.pk, UniqueItem)
  {
    KindPk();
    KindIncrement();
    KindNotNull();
    KindUnique();
    OptionalKind(c.pk, if c.increment then "increment" else "pk", if c.increment then IncrementItem else PkItem);
    OptionalKind(c.notNull && !c.pk, "not null", NotNullItem);
    OptionalKind(c.unique && !c.pk, "unique", UniqueItem);
  }

  lemma ValueKinds(c: Column)
    ensures ItemKinds(if Truthy(c.defaultValue) then ["default: " + c.defaultValue.value] else [])
            == Opt(Truthy(c.defaultValue), DefaultItem)
    ensures ItemKinds(if c.fk || Truthy(c.refTable) then [RefItemText(c)] else [])
            == Opt(c.fk || Truthy(c.refTable), RefItem)
    ensures ItemKinds(if Truthy(c.note) then ["note: '" + c.note.value + "'"] else [])
            == Opt(Truthy(c.note), NoteItem)
  {
    if Truthy(c.defaultValue) {
      KindDefault(c.defaultValue.value);
    }
    KindRef(OrElse(c.refTable, "table"), OrElse(c.refColumn, "id"));
    if Truthy(c.note) {
      KindNote(c.note.value);
    }
  }

  lemma OptionalKind(b: bool, s: string, k: ItemKind)
    requires b ==> KindOf(s) == k
    ensures ItemKinds(if b then [s] else []) == Opt(b, k)
  {
  }

  /** The fixed order of `generate`: pk or increment, not null, unique,
      default, ref, note; each at most once, `not null` and `unique` only
      for non-key columns, and nothing the parser would ignore. */
  lemma ConstraintOrder(c: Column)
    ensures var ks := ItemKinds(ColumnConstraints(c));
            forall i, j :: 0 <= i < j < |ks| ==> Rank(ks[i]) < Rank(ks[j])
    ensures var ks := ItemKinds(ColumnConstraints(c));
            (IncrementItem in ks <==> c.pk && c.increment)
            && (PkItem in ks <==> c.pk && !c.increment)
            && (NotNullItem in ks <==> c.notNull && !c.pk)
            && (UniqueItem in ks <==> c.unique && !c.pk)
            && (DefaultItem in ks <==> Truthy(c.defaultValue))
            && (RefItem in ks <==> c.fk || Truthy(c.refTable))
            && (NoteItem in ks <==> Truthy(c.note))
            && OtherItem !in ks
  {
    ConstraintKinds(c);
    IntendedSorted(c);
    KeyMembers(c);
    ValueMembers(c);
  }

  lemma IntendedSorted(c: Column)
    ensures RankSorted(IntendedKinds(c))
  {
    var p := Opt(c.pk, if c.increment then IncrementItem else PkItem);
    var nn := Opt(c.notNull && !c.pk, NotNullItem);
    var u := Opt(c.unique && !c.pk, UniqueItem);
    var d := Opt(Truthy(c.defaultValue), DefaultItem);
    var r := Opt(c.fk || Truthy(c.refTable), RefItem);
    var n := Opt(Truthy(c.note), NoteItem);
    SortedPieces(p, nn, u, d, r, n);
  }

  lemma KeyMembers(c: Column)
    ensures var ks := IntendedKinds(c);
            (IncrementItem in ks <==> c.pk && c.increment)
            && (PkItem in ks <==> c.pk && !c.increment)
            && (NotNullItem in ks <==> c.notNull && !c.pk)
            && (UniqueItem in ks <==> c.unique && !c.pk)
  {
    var p := Opt(c.pk, if c.increment then IncrementItem else PkItem);
    var nn := Opt(c.notNull && !c.pk, NotNullItem);
    var u := Opt(c.unique && !c.pk, UniqueItem);
    var d := Opt(Truthy(c.defaultValue), DefaultItem);
    var r := Opt(c.fk || Truthy(c.refTable), RefItem);
    var n := Opt(Truthy(c.note), NoteItem);
    MemberPieces(p, nn, u, d, r, n);
  }

  lemma ValueMembers(c: Column)
    ensures var ks := IntendedKinds(c);
            (DefaultItem in ks <==> Truthy(c.defaultValue))
            && (RefItem in ks <==> c.fk || Truthy(c.refTable))
            && (NoteItem in ks <==> Truthy(c.note))
            && OtherItem !in ks
  {
    var p := Opt(c.pk, if c.increment then IncrementItem else PkItem);
    var nn := Opt(c.notNull && !c.pk, NotNullItem);
    var u := Opt(c.unique && !c.pk, UniqueItem);
    var d := Opt(Truthy(c.defaultValue), DefaultItem);
    var r := Opt(c.fk || Truthy(c.refTable), RefItem);
    var n := Opt(Truthy(c.note), NoteItem);
    MemberPieces(p, nn, u, d, r, n);
  }

  lemma MemberPieces(p: seq<ItemKind>, nn: seq<ItemKind>, u: seq<ItemKind>, d: seq<ItemKind>, r: seq<ItemKind>, n: seq<ItemKind>)
    ensures forall x :: x in p + nn + u + d + r + n <==> x in p || x in nn || x in u || x in d || x in r || x in n
  {
  }

  /** Six pieces whose ranks are 0 to 5 in turn, each at most one long. */
  lemma SortedPieces(p: seq<ItemKind>, nn: seq<ItemKind>, u: seq<ItemKind>, d: seq<ItemKind>, r: seq<ItemKind>, n: seq<ItemKind>)
    requires |p| <= 1 && |nn| <= 1 && |u| <= 1 && |d| <= 1 && |r| <= 1 && |n| <= 1
    requires (forall i :: 0 <= i < |p| ==> Rank(p[i]) == 0) && (forall i :: 0 <= i < |nn| ==> Rank(nn[i]) == 1)
    requires (forall i :: 0 <= i < |u| ==> Rank(u[i]) == 2) && (forall i :: 0 <= i < |d| ==> Rank(d[i]) == 3)
    requires (forall i :: 0 <= i < |r| ==> Rank(r[i]) == 4) && (forall i :: 0 <= i < |n| ==> Rank(n[i]) == 5)
    ensures RankSorted(p + nn + u + d + r + n)
  {
    SortedAppend(p, nn, 1);
    SortedAppend(p + nn, u, 2);
    SortedAppend(p + nn + u, d, 3);
    SortedAppend(p + nn + u + d, r, 4);
    SortedAppend(p + nn + u + d + r, n, 5);
  }

  predicate RankSorted(ks: seq<ItemKind>) {
    forall i, j :: 0 <= i < j < |ks| ==> Rank(ks[i]) < Rank(ks[j])
  }

  lemma SortedAppend(a: seq<ItemKind>, b: seq<ItemKind>, n: nat)
    requires RankSorted(a) && RankSorted(b)
    requires forall i :: 0 <= i < |a| ==> Rank(a[i]) < n
    requires forall i :: 0 <= i < |b| ==> Rank(b[i]) >= n
    ensures RankSorted(a + b)
  {
  }

  // ---------------------------------------------------------------------
  // SQL types
  // ---------------------------------------------------------------------

  /** The keys and values of the `typeMap` object literal of `sqlType`. */
  const SqlTypeMap: map<string, string> := map[
    "int" := "INT", "varchar" := "VARCHAR", "text" := "TEXT", "bool" := "BOOLEAN",
    "datetime" := "DATETIME", "date" := "DATE", "timestamp" := "TIMESTAMP",
    "decimal" := "DECIMAL", "float" := "FLOAT", "blob" := "BLOB", "json" := "JSON",
    "uuid" := "VARCHAR(36)"]

  /** No lower-case ASCII letter: what a SQL type keyword looks like here. */
  predicate NoLowerCase(s: string) {
    forall i :: 0 <= i < |s| ==> !('a' <= s[i] <= 'z')
  }

  lemma UpperNoLowerCase(s: string)
    ensures NoLowerCase(Upper(s))
  {
  }

  lemma SqlTypeMapUpper()
    ensures forall k :: k in SqlTypeMap ==> NoLowerCase(SqlTypeMap[k])
  {
    assert NoLowerCase("INT") && NoLowerCase("VARCHAR") && NoLowerCase("TEXT");
    assert NoLowerCase("BOOLEAN") && NoLowerCase("DATETIME") && NoLowerCase("DATE");
    assert NoLowerCase("TIMESTAMP") && NoLowerCase("DECIMAL") && NoLowerCase("FLOAT");
    assert NoLowerCase("BLOB") && NoLowerCase("JSON") && NoLowerCase("VARCHAR(36)");
  }

  /** `sqlType` as evidently intended: a synonym looked up among the map's
      own keys by the lower-cased type, otherwise the type upper-cased.
      Every result is an upper-case keyword. */
  function SqlType(t: string): (r: string)
    ensures Lower(t) in SqlTypeMap ==> r == SqlTypeMap[Lower(t)]
    ensures Lower(t) !in SqlTypeMap ==> r == Upper(t)
    ensures NoLowerCase(r)
  {
    SqlTypeMapUpper();
    UpperNoLowerCase(t);
    var k := Lower(t);
    if k in SqlTypeMap then SqlTypeMap[k] else Upper(t)
  }

  /** `sqlType` as written: `typeMap[key]` on a plain object literal also
      finds the two lower-case properties every object inherits, and the
      template that prints the result turns them into their string forms. */
  function SqlTypeAsWritten(t: string): string {
    var k := Lower(t);
    if k in SqlTypeMap then SqlTypeMap[k]
    else if k == "constructor" then "function Object() { [native code] }"
    else if k == "__proto__" then "[object Object]"
    else Upper(t)
  }

  /** The two agree on every other type. */
  lemma SqlTypeAgrees(t: string)
    requires Lower(t) != "constructor" && Lower(t) != "__proto__"
    ensures SqlTypeAsWritten(t) == SqlType(t)
  {
  }

  /** A column typed `constructor` is written with a JavaScript function's
      source text as its SQL type. */
  lemma SqlTypeConstructor()
    ensures SqlTypeAsWritten("constructor") == "function Object() { [native code] }"
    ensures !NoLowerCase(SqlTypeAsWritten("constructor"))
    ensures NoLowerCase(SqlType("constructor"))
  {
    LowerNoUpper("constructor");
    ConstructorType("constructor");
  }

  /** The same for every spelling of `constructor`, in any case. */
  lemma ConstructorType(t: string)
    requires Lower(t) == "constructor"
    ensures SqlTypeAsWritten(t) == "function Object() { [native code] }"
    ensures !NoLowerCase(SqlTypeAsWritten(t))
    ensures NoLowerCase(SqlType(t))
  {
    assert Lower(t) !in SqlTypeMap;
    assert "function Object() { [native code] }"[1] == 'u';
  }

  /** Lower-casing leaves a string without capitals as it is. */
  lemma LowerNoUpper(s: string)
    requires forall i :: 0 <= i < |s| ==> !('A' <= s[i] <= 'Z')
    ensures Lower(s) == s
  {
  }

  // ---------------------------------------------------------------------
  // SQL statements
  // ---------------------------------------------------------------------

  /** `relationships.find(...)` for a column: the first relationship leaving
      that table and column. */
  function ForeignKeyRel(rels: seq<Relationship>, table: string, column: string): (r: Option<nat>)
    ensures r.Some? ==> r.value < |rels| && rels[r.value].fromTable == table && rels[r.value].fromColumn == column
    ensures r.Some? ==> forall k :: 0 <= k < r.value ==> !(rels[k].fromTable == table && rels[k].fromColumn == column)
    ensures r.None? <==> forall k :: 0 <= k < |rels| ==> !(rels[k].fromTable == table && rels[k].fromColumn == column)
    decreases |rels|
  {
    if |rels| == 0 then None
    else if rels[0].fromTable == table && rels[0].fromColumn == column then Some(0)
    else match ForeignKeyRel(rels[1..], table, column)
      case Some(k) => Some(k + 1)
      case None => None
  }

  /** The column's name, SQL type and column-level constraints. */
  function BaseDef(c: Column): string {
    "    " + c.name + " " + SqlType(c.typeName)
    + (if c.increment then " AUTO_INCREMENT" else "")
    + (if c.notNull then " NOT NULL" else "")
    + (if c.unique then " UNIQUE" else "")
    + (if Truthy(c.defaultValue) then " DEFAULT " + c.defaultValue.value else "")
  }

  function ForeignKeyText(c: Column, r: Relationship): string {
    ",\n    FOREIGN KEY (" + c.name + ") REFERENCES " + r.toTable + "(" + r.toColumn + ")"
  }

  function ColumnDef(table: string, c: Column, rels: seq<Relationship>): string {
    BaseDef(c) + match ForeignKeyRel(rels, table, c.name)
      case Some(k) => ForeignKeyText(c, rels[k])
      case None => ""
  }

  /** A column definition carries a foreign-key clause exactly when some
      relationship leaves that table and column, and then it names the
      target of the first one. */
  lemma ForeignKeyClause(table: string, c: Column, rels: seq<Relationship>)
    ensures (exists k :: 0 <= k < |rels| && rels[k].fromTable == table && rels[k].fromColumn == c.name)
            <==> ColumnDef(table, c, rels) != BaseDef(c)
    ensures forall k :: (0 <= k < |rels| && rels[k].fromTable == table && rels[k].fromColumn == c.name
                         && (forall j :: 0 <= j < k ==> !(rels[j].fromTable == table && rels[j].fromColumn == c.name)))
                        ==> ColumnDef(table, c, rels) == BaseDef(c) + ForeignKeyText(c, rels[k])
  {
    ColumnDefParts(table, c, rels);
    forall k | 0 <= k < |rels| && rels[k].fromTable == table && rels[k].fromColumn == c.name
               && (forall j :: 0 <= j < k ==> !(rels[j].fromTable == table && rels[j].fromColumn == c.name))
      ensures ColumnDef(table, c, rels) == BaseDef(c) + ForeignKeyText(c, rels[k])
    {
      ForeignKeyRelFirst(rels, table, c.name, k);
    }
  }

  /** The definition is the base alone, or the base and a non-empty clause. */
  lemma ColumnDefParts(table: string, c: Column, rels: seq<Relationship>)
    ensures var m := ForeignKeyRel(rels, table, c.name);
            (m.None? ==> ColumnDef(table, c, rels) == BaseDef(c))
            && (m.Some? ==> ColumnDef(table, c, rels) == BaseDef(c) + ForeignKeyText(c, rels[m.value])
                            && |ColumnDef(table, c, rels)| > |BaseDef(c)|)
  {
    var def := ColumnDef(table, c, rels);
    match ForeignKeyRel(rels, table, c.name)
    case Some(m) =>
      var fk := ForeignKeyText(c, rels[m]);
      assert def == BaseDef(c) + fk;
      assert fk[0] == ',';
    case None =>
      assert def == BaseDef(c) + "";
  }

  /** The first relationship leaving the column is the one found. */
  lemma ForeignKeyRelFirst(rels: seq<Relationship>, table: string, column: string, k: nat)
    requires k < |rels| && rels[k].fromTable == table && rels[k].fromColumn == column
    requires forall j :: 0 <= j < k ==> !(rels[j].fromTable == table && rels[j].fromColumn == column)
    ensures ForeignKeyRel(rels, table, column) == Some(k)
  {
    var r := ForeignKeyRel(rels, table, column);
    assert r.Some?;
    assert !(r.value < k);
  }

  /** The positions of the key columns, in column order. */
  function PkIndices(cols: seq<Column>): (ix: seq<nat>)
    ensures forall j :: 0 <= j < |ix| ==> ix[j] < |cols| && cols[ix[j]].pk
    ensures forall j, k :: 0 <= j < k < |ix| ==> ix[j] < ix[k]
    ensures forall i :: 0 <= i < |cols| && cols[i].pk ==> i in ix
    decreases |cols|
  {
    if |cols| == 0 then []
    else
      var n := |cols| - 1;
      var front := PkIndices(cols[..n]);
      assert forall j :: 0 <= j < |front| ==> cols[..n][front[j]] == cols[front[j]];
      front + (if cols[n].pk then [n] else [])
  }

  function PkNames(cols: seq<Column>): (names: seq<string>)
    ensures |names| == |PkIndices(cols)|
    ensures forall j :: 0 <= j < |names| ==> names[j] == cols[PkIndices(cols)[j]].name
  {
    var ix := PkIndices(cols);
    seq(|ix|, j requires 0 <= j < |ix| => cols[ix[j]].name)
  }

  function PrimaryKeyDefs(cols: seq<Column>): seq<string> {
    var pks := PkNames(cols);
    if |pks| > 0 then ["    PRIMARY KEY (" + Join(pks, ", ") + ")"] else []
  }

  /** One definition per column, in column order. */
  function DefsOf(table: string, cols: seq<Column>, rels: seq<Relationship>): (r: seq<string>)
    ensures |r| == |cols|
    ensures forall i :: 0 <= i < |cols| ==> r[i] == ColumnDef(table, cols[i], rels)
    decreases |cols|
  {
    if |cols| == 0 then []
    else
      var n := |cols| - 1;
      assert forall i :: 0 <= i < n ==> cols[..n][i] == cols[i];
      DefsOf(table, cols[..n], rels) + [ColumnDef(table, cols[n], rels)]
  }

  /** The definitions of a table: one per column, then the key clause. */
  function ColumnDefs(t: Table, rels: seq<Relationship>): seq<string> {
    DefsOf(t.name, t.columns, rels) + PrimaryKeyDefs(t.columns)
  }

  function TableSql(t: Table, rels: seq<Relationship>): string {
    "CREATE TABLE " + t.name + " (\n" + Join(ColumnDefs(t, rels), ",\n") + "\n);\n\n"
  }

  /** `DBPARSER.generateSQL`. */
  function SqlText(tables: seq<Table>, rels: seq<Relationship>): string
    decreases |tables|
  {
    if |tables| == 0 then "" else TableSql(tables[0], rels) + SqlText(tables[1..], rels)
  }

  /** A table gets a key clause exactly when one of its columns is a key;
      it follows the column definitions and lists every key column, in
      column order, and nothing else. */
  lemma PrimaryKeyClause(t: Table, rels: seq<Relationship>)
    ensures |ColumnDefs(t, rels)| == |t.columns| + (if exists i :: 0 <= i < |t.columns| && t.columns[i].pk then 1 else 0)
    ensures forall i :: 0 <= i < |t.columns| ==> ColumnDefs(t, rels)[i] == ColumnDef(t.name, t.columns[i], rels)
    ensures (exists i :: 0 <= i < |t.columns| && t.columns[i].pk) ==>
            ColumnDefs(t, rels)[|t.columns|] == "    PRIMARY KEY (" + Join(PkNames(t.columns), ", ") + ")"
    ensures var ix := PkIndices(t.columns);
            forall j :: 0 <= j < |ix| ==> PkNames(t.columns)[j] == t.columns[ix[j]].name
  {
    HasKeyIndices(t.columns);
    var defs := DefsOf(t.name, t.columns, rels);
    var keys := PrimaryKeyDefs(t.columns);
    assert ColumnDefs(t, rels) == defs + keys;
    assert forall i :: 0 <= i < |defs| ==> (defs + keys)[i] == defs[i];
  }

  lemma KeyIndexListed(cols: seq<Column>, i: nat)
    requires i < |cols| && cols[i].pk
    ensures |PkIndices(cols)| > 0
  {
    assert i in PkIndices(cols);
  }

  lemma KeyIndexFirst(cols: seq<Column>)
    requires |PkIndices(cols)| > 0
    ensures exists i :: 0 <= i < |cols| && cols[i].pk
  {
    var ix := PkIndices(cols);
    assert ix[0] < |cols| && cols[ix[0]].pk;
  }

  /** A table has a key column exactly when it has a key index. */
  lemma HasKeyIndices(cols: seq<Column>)
    ensures (exists i :: 0 <= i < |cols| && cols[i].pk) <==> |PkIndices(cols)| > 0
  {
    if exists i :: 0 <= i < |cols| && cols[i].pk {
      var i :| 0 <= i < |cols| && cols[i].pk;
      KeyIndexListed(cols, i);
    }
    if |PkIndices(cols)| > 0 {
      KeyIndexFirst(cols);
    }
  }

  /** `DBPARSER.generateSQL` as the accumulating loops it is. */
  method GenerateSQL(tables: seq<Table>, rels: seq<Relationship>) returns (sql: string)
    ensures sql == SqlText(tables, rels)
  {
    sql := "";
    var i := 0;
    while i < |tables|
      invariant 0 <= i <= |tables|
      invariant sql + SqlText(tables[i..], rels) == SqlText(tables, rels)
    {
      var defs := TableDefs(tables[i], rels);
      var block := "CREATE TABLE " + tables[i].name + " (\n" + Join(defs, ",\n") + "\n);\n\n";
      assert block == TableSql(tables[i], rels);
      SqlStep(sql, tables, i, rels);
      sql := sql + block;
      i := i + 1;
    }
    SqlEnd(sql, tables, rels);
  }

  lemma SqlEnd(sql: string, tables: seq<Table>, rels: seq<Relationship>)
    requires sql + SqlText(tables[|tables|..], rels) == SqlText(tables, rels)
    ensures sql == SqlText(tables, rels)
  {
    assert tables[|tables|..] == [];
  }

  lemma SqlStep(sql: string, tables: seq<Table>, i: nat, rels: seq<Relationship>)
    requires i < |tables|
    requires sql + SqlText(tables[i..], rels) == SqlText(tables, rels)
    ensures (sql + TableSql(tables[i], rels)) + SqlText(tables[i + 1..], rels) == SqlText(tables, rels)
  {
    var ts := tables[i..];
    assert ts[1..] == tables[i + 1..] && ts[0] == tables[i];
    SqlUnfold(ts, rels);
    Reassociate(sql, TableSql(tables[i], rels), SqlText(tables[i + 1..], rels));
  }

  lemma SqlUnfold(ts: seq<Table>, rels: seq<Relationship>)
    requires |ts| > 0
    ensures SqlText(ts, rels) == TableSql(ts[0], rels) + SqlText(ts[1..], rels)
  {
  }

  /** The column loop of `generateSQL` for one table: the definitions, and
      the key columns collected on the way. */
  method TableDefs(t: Table, rels: seq<Relationship>) returns (defs: seq<string>)
    ensures defs == ColumnDefs(t, rels)
  {
    var cols := t.columns;
    defs := [];
    var pks: seq<string> := [];
    var i := 0;
    while i < |cols|
      invariant 0 <= i <= |cols|
      invariant defs == DefsOf(t.name, cols[..i], rels)
      invariant pks == PkNames(cols[..i])
    {
      PkNamesStep(cols, i);
      DefsStep(t.name, cols, i, rels);
      var def := ColumnDefinition(t.name, cols[i], rels);
      if cols[i].pk {
        pks := pks + [cols[i].name];
      }
      defs := defs + [def];
      i := i + 1;
    }
    assert cols[..i] == cols;
    var keys: seq<string> := [];
    if |pks| > 0 {
      keys := ["    PRIMARY KEY (" + Join(pks, ", ") + ")"];
    }
    assert keys == PrimaryKeyDefs(cols);
    defs := defs + keys;
  }

  /** One column's definition, with the foreign-key clause of the first
      relationship leaving it. */
  method ColumnDefinition(table: string, c: Column, rels: seq<Relationship>) returns (def: string)
    ensures def == ColumnDef(table, c, rels)
  {
    def := BaseDef(c);
    var r := ForeignKeyRel(rels, table, c.name);
    if r.Some? {
      def := def + ForeignKeyText(c, rels[r.value]);
    }
    DefIs(table, c, rels, r, def);
  }

  lemma DefIs(table: string, c: Column, rels: seq<Relationship>, r: Option<nat>, def: string)
    requires r == ForeignKeyRel(rels, table, c.name)
    requires r.Some? ==> def == BaseDef(c) + ForeignKeyText(c, rels[r.value])
    requires r.None? ==> def == BaseDef(c)
    ensures def == ColumnDef(table, c, rels)
  {
  }

  lemma DefsStep(table: string, cols: seq<Column>, i: nat, rels: seq<Relationship>)
    requires i < |cols|
    ensures DefsOf(table, cols[..i + 1], rels) == DefsOf(table, cols[..i], rels) + [ColumnDef(table, cols[i], rels)]
  {
    assert cols[..i + 1][..i] == cols[..i];
  }

  lemma PkNamesStep(cols: seq<Column>, i: nat)
    requires i < |cols|
    ensures PkNames(cols[..i + 1]) == PkNames(cols[..i]) + (if cols[i].pk then [cols[i].name] else [])
  {
    var next := cols[..i + 1];
    assert next[..i] == cols[..i];
    assert PkIndices(next) == PkIndices(cols[..i]) + (if cols[i].pk then [i] else []);
  }
}
