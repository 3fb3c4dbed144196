/** Relationship management (`relationships.js`): the helpers that pick and
    name foreign-key columns, creating, editing and deleting relationships so
    that the relationship list and the columns' foreign-key fields stay in
    step, and the connection a pointer drags out of a table. */
module Relationships {
  import opened Wrappers
  import opened Text
  import opened Schema
  import opened Geometry
  import opened Session

  // ---------------------------------------------------------------------
  // The column a new foreign key references
  // ---------------------------------------------------------------------

  /** Position of the first primary-key column. */
  function FirstPk(cols: seq<Column>): (r: Option<nat>)
    ensures r.Some? ==> r.value < |cols| && cols[r.value].pk
    ensures r.Some? ==> forall i :: 0 <= i < r.value ==> !cols[i].pk
    ensures r.None? ==> forall i :: 0 <= i < |cols| ==> !cols[i].pk
  {
    if |cols| == 0 then None
    else if cols[0].pk then Some(0)
    else match FirstPk(cols[1..])
      case Some(k) => Some(k + 1)
      case None => None
  }

  /** The column is called `id`, ignoring case. */
  predicate IsIdColumn(c: Column) {
    Lower(c.name) == "id"
  }

  /** Position of the first column called `id`, ignoring case. */
  function FirstId(cols: seq<Column>): (r: Option<nat>)
    ensures r.Some? ==> r.value < |cols| && IsIdColumn(cols[r.value])
    ensures r.Some? ==> forall i :: 0 <= i < r.value ==> !IsIdColumn(cols[i])
    ensures r.None? ==> forall i :: 0 <= i < |cols| ==> !IsIdColumn(cols[i])
  {
    if |cols| == 0 then None
    else if IsIdColumn(cols[0]) then Some(0)
    else match FirstId(cols[1..])
      case Some(k) => Some(k + 1)
      case None => None
  }

  /** `getReferenceColumnForTable`, as a position in `t.columns`: the first
      primary key, else the first column called `id`, else the first column,
      else nothing. */
  function ReferenceColumn(t: Table): (r: Option<nat>)
    ensures r.None? <==> |t.columns| == 0
    ensures r.Some? ==> r.value < |t.columns|
    ensures (exists i :: 0 <= i < |t.columns| && t.columns[i].pk) ==>
              r.Some? && t.columns[r.value].pk
              && forall i :: 0 <= i < r.value ==> !t.columns[i].pk
    ensures (forall i :: 0 <= i < |t.columns| ==> !t.columns[i].pk)
            && (exists i :: 0 <= i < |t.columns| && IsIdColumn(t.columns[i])) ==>
              r.Some? && IsIdColumn(t.columns[r.value])
              && forall i :: 0 <= i < r.value ==> !IsIdColumn(t.columns[i])
    ensures ((forall i :: 0 <= i < |t.columns| ==> !t.columns[i].pk && !IsIdColumn(t.columns[i]))
             && |t.columns| > 0) ==> r == Some(0)
  {
    match FirstPk(t.columns)
    case Some(i) => Some(i)
    case None =>
      match FirstId(t.columns)
      case Some(i) => Some(i)
      case None => if |t.columns| == 0 then None else Some(0)
  }

  // ---------------------------------------------------------------------
  // Column-name sanitising
  // ---------------------------------------------------------------------

  /** `[a-z0-9_]`. */
  predicate IsNameChar(c: char) {
    'a' <= c <= 'z' || '0' <= c <= '9' || c == '_'
  }

  predicate AllNameChars(s: string) {
    forall i :: 0 <= i < |s| ==> IsNameChar(s[i])
  }

  predicate NoDoubleUnderscore(s: string) {
    forall i :: 0 <= i < |s| - 1 ==> !(s[i] == '_' && s[i + 1] == '_')
  }

  /** The names `sanitizeColumnName` can return: not empty, only `[a-z0-9_]`,
      no `__`, and no `_` at either end. */
  predicate SanitizedName(s: string) {
    |s| > 0 && AllNameChars(s) && NoDoubleUnderscore(s) && s[0] != '_' && s[|s| - 1] != '_'
  }

  /** `replace(/[^a-z0-9_]/g, '_')`. */
  function MapNameChars(s: string): (r: string)
    ensures |r| == |s|
    ensures forall i :: 0 <= i < |s| ==> r[i] == if IsNameChar(s[i]) then s[i] else '_'
  {
    if |s| == 0 then "" else [if IsNameChar(s[0]) then s[0] else '_'] + MapNameChars(s[1..])
  }

  /** `replace(/_+/g, '_')`: every run of underscores becomes one. */
  function CollapseUnderscores(s: string): (r: string)
    ensures NoDoubleUnderscore(r)
    ensures |s| > 0 ==> |r| > 0 && r[0] == s[0]
    ensures AllNameChars(s) ==> AllNameChars(r)
    ensures NoDoubleUnderscore(s) ==> r == s
  {
    if |s| <= 1 then s
    else if s[0] == '_' && s[1] == '_' then CollapseUnderscores(s[1..])
    else
      var rest := CollapseUnderscores(s[1..]);
      assert ([s[0]] + rest)[1..] == rest;
      [s[0]] + rest
  }

  /** The `^_+` half of `replace(/^_+|_+$/g, '')`. */
  function DropLeadingUnderscores(s: string): (r: string)
    ensures |r| <= |s| && r == s[|s| - |r|..]
    ensures r == "" || r[0] != '_'
    ensures s == "" || s[0] != '_' ==> r == s
  {
    if |s| > 0 && s[0] == '_' then DropLeadingUnderscores(s[1..]) else s
  }

  /** The `_+$` half of `replace(/^_+|_+$/g, '')`. */
  function DropTrailingUnderscores(s: string): (r: string)
    ensures |r| <= |s| && r == s[..|r|]
    ensures r == "" || r[|r| - 1] != '_'
    ensures s == "" || s[|s| - 1] != '_' ==> r == s
  {
    if |s| > 0 && s[|s| - 1] == '_' then DropTrailingUnderscores(s[..|s| - 1]) else s
  }

  lemma SliceKeepsName(s: string, i: nat, j: nat)
    requires i <= j <= |s|
    requires AllNameChars(s) && NoDoubleUnderscore(s)
    ensures AllNameChars(s[i..j]) && NoDoubleUnderscore(s[i..j])
  {
    var t := s[i..j];
    forall k | 0 <= k < |t| - 1
      ensures !(t[k] == '_' && t[k + 1] == '_')
    {
      assert t[k] == s[i + k] && t[k + 1] == s[i + k + 1];
    }
  }

  /** What the three replacements leave (possibly empty). */
  function Stripped(name: string): string {
    DropTrailingUnderscores(DropLeadingUnderscores(CollapseUnderscores(MapNameChars(Lower(name)))))
  }

  lemma StrippedShape(name: string)
    ensures var t := Stripped(name);
            AllNameChars(t) && NoDoubleUnderscore(t)
            && (t == "" || (t[0] != '_' && t[|t| - 1] != '_'))
  {
    var c := CollapseUnderscores(MapNameChars(Lower(name)));
    var u := DropLeadingUnderscores(c);
    var t := DropTrailingUnderscores(u);
    SliceKeepsName(c, |c| - |u|, |c|);
    SliceKeepsName(u, 0, |t|);
    if t != "" {
      assert t[0] == u[0];
    }
  }

  /** `sanitizeColumnName`: lower case, every other character becomes `_`,
      runs of `_` shrink to one, `_` is trimmed from both ends, and an empty
      result falls back to `fk_id`. */
  function SanitizeColumnName(name: string): (r: string)
    ensures SanitizedName(r)
  {
    var t := Stripped(name);
    if t == "" then FallbackSanitized(); "fk_id"
    else StrippedShape(name); t
  }

  lemma FallbackSanitized()
    ensures SanitizedName("fk_id")
  {
    var f := "fk_id";
    assert f[0] == 'f' && f[1] == 'k' && f[2] == '_' && f[3] == 'i' && f[4] == 'd';
  }

  lemma LowerNameChars(s: string)
    requires AllNameChars(s)
    ensures Lower(s) == s
  {
    assert forall i :: 0 <= i < |s| ==> Lower(s)[i] == s[i];
  }

  lemma MapNameCharsKeeps(s: string)
    requires AllNameChars(s)
    ensures MapNameChars(s) == s
  {
    assert forall i :: 0 <= i < |s| ==> MapNameChars(s)[i] == s[i];
  }

  /** A name is left as it is exactly when it is already sanitized. */
  lemma SanitizeFixedPoints(s: string)
    ensures SanitizeColumnName(s) == s <==> SanitizedName(s)
  {
    if SanitizedName(s) {
      LowerNameChars(s);
      MapNameCharsKeeps(s);
    }
  }

  /** Sanitizing twice is sanitizing once. */
  lemma SanitizeIdempotent(s: string)
    ensures SanitizeColumnName(SanitizeColumnName(s)) == SanitizeColumnName(s)
  {
    SanitizeFixedPoints(SanitizeColumnName(s));
  }

  /** `suggestForeignKeyColumnName`: the sanitized `table_column`. */
  function SuggestForeignKeyColumnName(toTable: string, toColumn: string): (r: string)
    ensures SanitizedName(r)
  {
    SanitizeColumnName(toTable + "_" + toColumn)
  }

  /** With already sanitized table and column names the suggestion is the two
      names joined by `_`, unchanged. */
  lemma SuggestKeepsSanitized(toTable: string, toColumn: string)
    requires SanitizedName(toTable) && SanitizedName(toColumn)
    ensures SuggestForeignKeyColumnName(toTable, toColumn) == toTable + "_" + toColumn
  {
    JoinSanitized(toTable, toColumn, toTable + "_" + toColumn);
    SanitizeFixedPoints(toTable + "_" + toColumn);
  }

  lemma JoinSanitized(a: string, b: string, s: string)
    requires SanitizedName(a) && SanitizedName(b)
    requires s == a + "_" + b
    ensures SanitizedName(s)
  {
    var n := |a|;
    assert forall i :: 0 <= i < n ==> s[i] == a[i];
    assert s[n] == '_';
    assert forall i :: n < i < |s| ==> s[i] == b[i - n - 1];
    forall i | 0 <= i < |s| - 1 ensures !(s[i] == '_' && s[i + 1] == '_') {
      if i < n - 1 {
        assert s[i] == a[i] && s[i + 1] == a[i + 1];
      } else if i > n {
        assert s[i] == b[i - n - 1] && s[i + 1] == b[i - n];
      }
    }
  }

  // ---------------------------------------------------------------------
  // A free column name
  // ---------------------------------------------------------------------

  /** The table already has a column of that name, ignoring case. */
  predicate HasColumnNamed(cols: seq<Column>, name: string) {
    exists i :: 0 <= i < |cols| && Lower(cols[i].name) == Lower(name)
  }

  /** The `k`-th name `getUniqueColumnName` tries: the base itself, then
      `base_2`, `base_3`, and so on. */
  function Candidate(base: string, k: nat): string
    requires k >= 1
  {
    if k == 1 then base else base + "_" + NatToString(k)
  }

  /** The `k`-th candidate is free and every earlier one is taken. */
  predicate FirstFree(cols: seq<Column>, base: string, k: nat) {
    k >= 1 && !HasColumnNamed(cols, Candidate(base, k))
    && forall j :: 1 <= j < k ==> HasColumnNamed(cols, Candidate(base, j))
  }

  lemma LowerDigits(s: string)
    requires forall i :: 0 <= i < |s| ==> IsDigit(s[i])
    ensures Lower(s) == s
  {
    assert forall i :: 0 <= i < |s| ==> Lower(s)[i] == s[i];
  }

  lemma LowerCandidate(base: string, k: nat)
    requires k >= 2
    ensures Lower(Candidate(base, k)) == Lower(base) + "_" + NatToString(k)
  {
    var d := NatToString(k);
    LowerDigits(d);
    LowerUnderscore(base);
    LowerConcat(base + "_", d);
  }

  lemma LowerUnderscore(base: string)
    ensures Lower(base + "_") == Lower(base) + "_"
  {
    LowerConcat(base, "_");
    assert Lower("_") == "_";
  }

  /** Different candidates differ even ignoring case. */
  lemma CandidatesDistinct(base: string, j: nat, k: nat)
    requires 1 <= j && 1 <= k
    requires Lower(Candidate(base, j)) == Lower(Candidate(base, k))
    ensures j == k
  {
    if j >= 2 {
      LowerCandidate(base, j);
    }
    if k >= 2 {
      LowerCandidate(base, k);
    }
    if j >= 2 && k >= 2 {
      var p := Lower(base) + "_";
      assert p + NatToString(j) == p + NatToString(k);
      assert NatToString(j) == (p + NatToString(j))[|p|..];
      NatToStringInjective(j, k);
    }
  }

  lemma TakenExtend(cols: seq<Column>, base: string, n: nat)
    requires n >= 1
    requires forall j :: 1 <= j < n ==> HasColumnNamed(cols, Candidate(base, j))
    requires HasColumnNamed(cols, Candidate(base, n))
    ensures forall j :: 1 <= j < n + 1 ==> HasColumnNamed(cols, Candidate(base, j))
  {
  }

  /** The naturals below `n`. */
  function Below(n: nat): (r: set<nat>)
    ensures forall i: nat :: i in r <==> i < n
  {
    if n == 0 then {} else Below(n - 1) + {n - 1}
  }

  /** `getUniqueColumnName`: the first candidate no column of the table
      already carries, ignoring case. */
  method GetUniqueColumnName(cols: seq<Column>, base: string) returns (name: string, ghost k: nat)
    ensures FirstFree(cols, base, k) && name == Candidate(base, k)
    ensures !HasColumnNamed(cols, name)
  {
    name := base;
    var counter := 1;
    // The columns that may still match a later candidate.
    ghost var left := Below(|cols|);
    while HasColumnNamed(cols, name)
      invariant counter >= 1 && name == Candidate(base, counter)
      invariant forall j :: 1 <= j < counter ==> HasColumnNamed(cols, Candidate(base, j))
      invariant forall i, j :: 0 <= i < |cols| && i !in left && j >= counter ==>
                  Lower(cols[i].name) != Lower(Candidate(base, j))
      decreases |left|
    {
      var i :| 0 <= i < |cols| && Lower(cols[i].name) == Lower(name);
      assert i in left;
      forall j | j >= counter + 1
        ensures Lower(cols[i].name) != Lower(Candidate(base, j))
      {
        if Lower(cols[i].name) == Lower(Candidate(base, j)) {
          CandidatesDistinct(base, j, counter);
        }
      }
      TakenExtend(cols, base, counter);
      left := left - {i};
      counter := counter + 1;
      name := base + "_" + NatToString(counter);
    }
    k := counter;
  }

  // ---------------------------------------------------------------------
  // Following a table rename, dropping a table
  // ---------------------------------------------------------------------

  /** One column after `renameTableReferences(oldName, newName)`. */
  function RenamedRef(c: Column, oldName: string, newName: string): Column {
    if c.refTable == Some(oldName) then c.(refTable := Some(newName), fk := true) else c
  }

  function RenameRefsIn(cols: seq<Column>, oldName: string, newName: string): (r: seq<Column>)
    ensures |r| == |cols|
    ensures forall j :: 0 <= j < |cols| ==> r[j] == RenamedRef(cols[j], oldName, newName)
  {
    if |cols| == 0 then [] else [RenamedRef(cols[0], oldName, newName)] + RenameRefsIn(cols[1..], oldName, newName)
  }

  /** Every table after `renameTableReferences(oldName, newName)`. */
  function RenamedReferences(tables: seq<Table>, oldName: string, newName: string): (r: seq<Table>)
    ensures |r| == |tables|
    ensures forall i :: 0 <= i < |tables| ==>
              r[i] == tables[i].(columns := RenameRefsIn(tables[i].columns, oldName, newName))
  {
    if |tables| == 0 then []
    else [tables[0].(columns := RenameRefsIn(tables[0].columns, oldName, newName))]
         + RenamedReferences(tables[1..], oldName, newName)
  }

  /** One column after `removeTableReferencesTo(name)`. */
  function RemovedRef(c: Column, name: string): Column {
    if c.refTable == Some(name) then c.(fk := false, refTable := None, refColumn := None) else c
  }

  function RemoveRefsIn(cols: seq<Column>, name: string): (r: seq<Column>)
    ensures |r| == |cols|
    ensures forall j :: 0 <= j < |cols| ==> r[j] == RemovedRef(cols[j], name)
  {
    if |cols| == 0 then [] else [RemovedRef(cols[0], name)] + RemoveRefsIn(cols[1..], name)
  }

  /** Every table after `removeTableReferencesTo(name)`. */
  function RemovedReferences(tables: seq<Table>, name: string): (r: seq<Table>)
    ensures |r| == |tables|
    ensures forall i :: 0 <= i < |tables| ==>
              r[i] == tables[i].(columns := RemoveRefsIn(tables[i].columns, name))
  {
    if |tables| == 0 then []
    else [tables[0].(columns := RemoveRefsIn(tables[0].columns, name))] + RemovedReferences(tables[1..], name)
  }

  /** Renaming touches exactly the columns that referenced the old name: they
      now reference the new one and are foreign keys, all else stays. */
  lemma RenameReferencesExactly(tables: seq<Table>, oldName: string, newName: string, i: nat, j: nat)
    requires i < |tables| && j < |tables[i].columns|
    ensures var r := RenamedReferences(tables, oldName, newName);
            var c, d := tables[i].columns[j], r[i].columns[j];
            |r[i].columns| == |tables[i].columns|
            && r[i].(columns := tables[i].columns) == tables[i]
            && (c.refTable == Some(oldName) ==> d == c.(refTable := Some(newName), fk := true))
            && (c.refTable != Some(oldName) ==> d == c)
  {
  }

  /** Removing touches exactly the columns that referenced the table: they
      lose the foreign key, all else stays; afterwards nothing references it. */
  lemma RemoveReferencesExactly(tables: seq<Table>, name: string, i: nat, j: nat)
    requires i < |tables| && j < |tables[i].columns|
    ensures var r := RemovedReferences(tables, name);
            var c, d := tables[i].columns[j], r[i].columns[j];
            |r[i].columns| == |tables[i].columns|
            && r[i].(columns := tables[i].columns) == tables[i]
            && (c.refTable == Some(name) ==> d == c.(fk := false, refTable := None, refColumn := None))
            && (c.refTable != Some(name) ==> d == c)
            && d.refTable != Some(name)
  {
  }

  /** The column loop of `renameTableReferences`, on one table's columns. */
  method RenameRefsInColumns(cols: seq<Column>, oldName: string, newName: string) returns (r: seq<Column>)
    ensures r == RenameRefsIn(cols, oldName, newName)
  {
    r := cols;
    var j := 0;
    while j < |r|
      invariant |r| == |cols| && 0 <= j <= |r|
      invariant forall k :: 0 <= k < j ==> r[k] == RenamedRef(cols[k], oldName, newName)
      invariant forall k :: j <= k < |r| ==> r[k] == cols[k]
    {
      if r[j].refTable == Some(oldName) {
        r := r[j := r[j].(refTable := Some(newName), fk := true)];
      }
      j := j + 1;
    }
  }

  /** The column loop of `removeTableReferencesTo`, on one table's columns. */
  method RemoveRefsInColumns(cols: seq<Column>, name: string) returns (r: seq<Column>)
    ensures r == RemoveRefsIn(cols, name)
  {
    r := cols;
    var j := 0;
    while j < |r|
      invariant |r| == |cols| && 0 <= j <= |r|
      invariant forall k :: 0 <= k < j ==> r[k] == RemovedRef(cols[k], name)
      invariant forall k :: j <= k < |r| ==> r[k] == cols[k]
    {
      if r[j].refTable == Some(name) {
        r := r[j := r[j].(fk := false, refTable := None, refColumn := None)];
      }
      j := j + 1;
    }
  }

  /** The table loop of `renameTableReferences`. */
  method RenameRefsInTables(tables: seq<Table>, oldName: string, newName: string) returns (ts: seq<Table>)
    ensures ts == RenamedReferences(tables, oldName, newName)
  {
    ts := tables;
    var i := 0;
    while i < |ts|
      invariant 0 <= i <= |ts| == |tables|
      invariant forall k :: 0 <= k < i ==> ts[k] == RenamedReferences(tables, oldName, newName)[k]
      invariant forall k :: i <= k < |ts| ==> ts[k] == tables[k]
    {
      var t := ts[i];
      var cols := RenameRefsInColumns(t.columns, oldName, newName);
      ts := ts[i := t.(columns := cols)];
      i := i + 1;
    }
  }

  /** The table loop of `removeTableReferencesTo`. */
  method RemoveRefsInTables(tables: seq<Table>, name: string) returns (ts: seq<Table>)
    ensures ts == RemovedReferences(tables, name)
  {
    ts := tables;
    var i := 0;
    while i < |ts|
      invariant 0 <= i <= |ts| == |tables|
      invariant forall k :: 0 <= k < i ==> ts[k] == RemovedReferences(tables, name)[k]
      invariant forall k :: i <= k < |ts| ==> ts[k] == tables[k]
    {
      var t := ts[i];
      var cols := RemoveRefsInColumns(t.columns, name);
      ts := ts[i := t.(columns := cols)];
      i := i + 1;
    }
  }

  /** `renameTableReferences`, in place on the page state. */
  method RenameTableReferences(ctx: Context, oldName: string, newName: string)
    modifies ctx
    ensures ctx.Snapshot() == old(ctx.Snapshot()).(tables := RenamedReferences(old(ctx.tables), oldName, newName))
  {
    ctx.tables := RenameRefsInTables(ctx.tables, oldName, newName);
  }

  /** `removeTableReferencesTo`, in place on the page state. */
  method RemoveTableReferencesTo(ctx: Context, name: string)
    modifies ctx
    ensures ctx.Snapshot() == old(ctx.Snapshot()).(tables := RemovedReferences(old(ctx.tables), name))
  {
    ctx.tables := RemoveRefsInTables(ctx.tables, name);
  }

  // ---------------------------------------------------------------------
  // Creating a relationship
  // ---------------------------------------------------------------------

  /** The options of `createRelationshipBetweenTables`. */
  datatype CreateOptions = CreateOptions(
    toColumnName: Option<string>,
    fkColumnName: string,
    relationshipKind: string,
    isRequired: bool)

  /** Why a relationship is not created. */
  datatype CreateError = SameTable | MissingTable | NoTargetColumn | Duplicate

  /** What the checks settle before anything changes: the position of the
      source table, the referenced column and the name to make unique. */
  datatype CreatePlan =
    | Planned(fromIndex: nat, target: Column, baseName: string)
    | Refused(error: CreateError)

  /** The referenced column: the one named in the options when a name is
      given, else the reference column. */
  function TargetColumn(t: Table, toColumnName: Option<string>): Option<Column> {
    if Truthy(toColumnName) then
      match FindColumn(t.columns, toColumnName.value)
      case Some(i) => Some(t.columns[i])
      case None => None
    else
      match ReferenceColumn(t)
      case Some(i) => Some(t.columns[i])
      case None => None
  }

  /** A relationship from `from` to `to`.`toColumn` already exists. */
  predicate Connected(rels: seq<Relationship>, from: string, to: string, toColumn: string) {
    exists k :: 0 <= k < |rels| && rels[k].fromTable == from && rels[k].toTable == to
                && rels[k].toColumn == toColumn
  }

  /** The checks of `createRelationshipBetweenTables`, in their order. */
  function PlanRelationship(tables: seq<Table>, rels: seq<Relationship>, from: string, to: string,
                            opts: CreateOptions): (p: CreatePlan)
    ensures from == to ==> p == Refused(SameTable)
    ensures from != to && !(HasTable(tables, from) && HasTable(tables, to)) ==> p == Refused(MissingTable)
    ensures p.Planned? ==>
              from != to && HasTable(tables, to)
              && p.fromIndex < |tables| && FindTable(tables, from) == Some(p.fromIndex)
              && TargetColumn(tables[FindTable(tables, to).value], opts.toColumnName) == Some(p.target)
              && !Connected(rels, from, to, p.target.name)
              && SanitizedName(p.baseName)
    ensures from != to && HasTable(tables, from) && HasTable(tables, to) ==>
              var target := TargetColumn(tables[FindTable(tables, to).value], opts.toColumnName);
              (target.None? ==> p == Refused(NoTargetColumn))
              && (target.Some? && Connected(rels, from, to, target.value.name) ==> p == Refused(Duplicate))
              && (target.Some? && !Connected(rels, from, to, target.value.name) ==> p.Planned?)
  {
    if from == to then Refused(SameTable)
    else
      var fi, ti := FindTable(tables, from), FindTable(tables, to);
      if fi.None? || ti.None? then Refused(MissingTable)
      else
        match TargetColumn(tables[ti.value], opts.toColumnName)
        case None => Refused(NoTargetColumn)
        case Some(col) =>
          if Connected(rels, from, to, col.name) then Refused(Duplicate)
          else
            var input := Trim(opts.fkColumnName);
            Planned(fi.value, col,
                    if input != "" then SanitizeColumnName(input)
                    else SuggestForeignKeyColumnName(to, col.name))
  }

  /** The foreign-key column a new relationship adds to its source table. */
  function ForeignKeyColumn(name: string, to: string, target: Column, opts: CreateOptions): Column {
    Column(name, if target.typeName == "" then "int" else target.typeName, false, false,
           opts.isRequired, opts.relationshipKind == "one_to_one", None, true,
           Some(to), Some(target.name), None)
  }

  /** The state after a planned relationship is created under the free name
      `name`: one column appended to the source table, one relationship
      appended to the list, and the editor text regenerated. */
  function Connect(s: State, from: string, to: string, opts: CreateOptions, p: CreatePlan, name: string): State
    requires p.Planned? && p.fromIndex < |s.tables|
  {
    var t := s.tables[p.fromIndex];
    SyncSql(s.(tables := s.tables[p.fromIndex := t.(columns := t.columns + [ForeignKeyColumn(name, to, p.target, opts)])],
               relationships := s.relationships + [Relationship(from, name, to, p.target.name)]))
  }

  /** Appending a column whose name the table does not use yet keeps every
      relationship backed. */
  lemma AppendColumnKeepsConsistent(tables: seq<Table>, rels: seq<Relationship>, i: nat, c: Column)
    requires Consistent(tables, rels)
    requires i < |tables| && FindColumn(tables[i].columns, c.name).None?
    ensures Consistent(tables[i := tables[i].(columns := tables[i].columns + [c])], rels)
  {
    var ts := tables[i := tables[i].(columns := tables[i].columns + [c])];
    forall k | 0 <= k < |rels|
      ensures RelationshipBacked(ts, rels[k])
    {
      assert RelationshipBacked(tables, rels[k]);
      FindTableSameNames(tables, ts, rels[k].fromTable);
      FindColumnAppend(tables[i].columns, c, rels[k].fromColumn);
    }
  }

  /** Creating a relationship keeps the relationship list and the columns'
      foreign-key fields in step: the new column backs the new relationship,
      and every old relationship stays backed. */
  lemma ConnectKeepsConsistent(s: State, from: string, to: string, opts: CreateOptions, name: string)
    requires Consistent(s.tables, s.relationships)
    requires PlanRelationship(s.tables, s.relationships, from, to, opts).Planned?
    requires !HasColumnNamed(s.tables[PlanRelationship(s.tables, s.relationships, from, to, opts).fromIndex].columns, name)
    ensures var r := Connect(s, from, to, opts, PlanRelationship(s.tables, s.relationships, from, to, opts), name);
            Consistent(r.tables, r.relationships)
            && |r.relationships| == |s.relationships| + 1
            && r.relationships[|s.relationships|] == Relationship(from, name, to, PlanRelationship(s.tables, s.relationships, from, to, opts).target.name)
  {
    var p := PlanRelationship(s.tables, s.relationships, from, to, opts);
    var t := s.tables[p.fromIndex];
    var c := ForeignKeyColumn(name, to, p.target, opts);
    var ts := s.tables[p.fromIndex := t.(columns := t.columns + [c])];
    var rel := Relationship(from, name, to, p.target.name);
    assert FindColumn(t.columns, name).None?;
    AppendColumnKeepsConsistent(s.tables, s.relationships, p.fromIndex, c);
    FindTableSameNames(s.tables, ts, from);
    FindColumnAppend(t.columns, c, name);
    assert RelationshipBacked(ts, rel);
    var rels := s.relationships + [rel];
    forall k | 0 <= k < |rels|
      ensures RelationshipBacked(ts, rels[k])
    {
      if k < |s.relationships| {
        assert rels[k] == s.relationships[k];
      }
    }
  }

  /** `createRelationshipBetweenTables`: refuses, changing nothing, or adds
      the foreign-key column and the relationship; also returns the name it
      chose (the one its message reports). */
  method CreateRelationshipBetweenTables(ctx: Context, from: string, to: string, opts: CreateOptions)
    returns (ok: bool, fkName: string)
    modifies ctx
    ensures var p := PlanRelationship(old(ctx.tables), old(ctx.relationships), from, to, opts);
            ok == p.Planned?
            && (!ok ==> ctx.Snapshot() == old(ctx.Snapshot()))
            && (ok ==> (exists k :: FirstFree(old(ctx.tables)[p.fromIndex].columns, p.baseName, k)
                                    && fkName == Candidate(p.baseName, k))
                       && ctx.Snapshot() == Connect(old(ctx.Snapshot()), from, to, opts, p, fkName))
  {
    fkName := "";
    ok := false;
    if from == to {
      return;
    }
    var fi := FindTable(ctx.tables, from);
    var ti := FindTable(ctx.tables, to);
    if fi.None? || ti.None? {
      return;
    }
    var target := TargetColumn(ctx.tables[ti.value], opts.toColumnName);
    if target.None? {
      return;
    }
    var col := target.value;
    if Connected(ctx.relationships, from, to, col.name) {
      return;
    }
    var input := Trim(opts.fkColumnName);
    var suggested := if input != "" then SanitizeColumnName(input) else SuggestForeignKeyColumnName(to, col.name);
    PlanPicks(ctx.tables, ctx.relationships, from, to, opts, fi.value, col);
    ghost var p := Planned(fi.value, col, suggested);
    var t := ctx.tables[fi.value];
    ghost var k;
    fkName, k := GetUniqueColumnName(t.columns, suggested);
    AddForeignKey(ctx, fi.value, ForeignKeyColumn(fkName, to, col, opts), Relationship(from, fkName, to, col.name));
    ok := true;
  }

  /** The two pushes of `createRelationshipBetweenTables` and the text
      update after them. */
  method AddForeignKey(ctx: Context, i: nat, c: Column, rel: Relationship)
    requires i < |ctx.tables|
    modifies ctx
    ensures ctx.Snapshot() == SyncSql(old(ctx.Snapshot()).(
              tables := old(ctx.tables)[i := old(ctx.tables)[i].(columns := old(ctx.tables)[i].columns + [c])],
              relationships := old(ctx.relationships) + [rel]))
  {
    var t := ctx.tables[i];
    ctx.tables := ctx.tables[i := t.(columns := t.columns + [c])];
    ctx.relationships := ctx.relationships + [rel];
    ctx.UpdateSqlFromState();
  }

  lemma PlanPicks(tables: seq<Table>, rels: seq<Relationship>, from: string, to: string, opts: CreateOptions,
                  fi: nat, col: Column)
    requires from != to && FindTable(tables, from) == Some(fi) && FindTable(tables, to).Some?
    requires TargetColumn(tables[FindTable(tables, to).value], opts.toColumnName) == Some(col)
    requires !Connected(rels, from, to, col.name)
    ensures PlanRelationship(tables, rels, from, to, opts)
            == Planned(fi, col, if Trim(opts.fkColumnName) != "" then SanitizeColumnName(Trim(opts.fkColumnName))
                                else SuggestForeignKeyColumnName(to, col.name))
  {
  }

  // ---------------------------------------------------------------------
  // The relation popovers
  // ---------------------------------------------------------------------

  /** `closeRelationEditor`. */
  method CloseRelationEditor(ctx: Context)
    modifies ctx
    ensures ctx.Snapshot() == CloseEditor(old(ctx.Snapshot()))
  {
    if ctx.relationEditor.Some? {
      ctx.relationEditor := None;
    }
  }

  /** `openRelationEditor`: any open popover closes; a new-relationship
      popover opens when both tables exist and the referenced one has
      columns. */
  function OpenedCreate(s: State, from: string, to: string): (r: State)
    ensures r.(relationEditor := s.relationEditor) == s
    ensures r.relationEditor.Some? <==>
              HasTable(s.tables, from) && HasTable(s.tables, to)
              && |s.tables[FindTable(s.tables, to).value].columns| > 0
    ensures r.relationEditor.Some? ==> r.relationEditor == Some(CreateEditor(from, to))
  {
    var s1 := CloseEditor(s);
    match (FindTable(s.tables, from), FindTable(s.tables, to))
    case (Some(_), Some(ti)) =>
      if |s.tables[ti].columns| == 0 then s1 else s1.(relationEditor := Some(CreateEditor(from, to)))
    case _ => s1
  }

  method OpenRelationEditor(ctx: Context, from: string, to: string)
    modifies ctx
    ensures ctx.Snapshot() == OpenedCreate(old(ctx.Snapshot()), from, to)
  {
    CloseRelationEditor(ctx);
    var fi := FindTable(ctx.tables, from);
    var ti := FindTable(ctx.tables, to);
    if fi.None? || ti.None? {
      return;
    }
    if |ctx.tables[ti.value].columns| == 0 {
      return;
    }
    ctx.relationEditor := Some(CreateEditor(from, to));
  }

  /** The popover's create button: creates the relationship and closes the
      popover when that succeeds. */
  method SubmitCreateEditor(ctx: Context, opts: CreateOptions) returns (ok: bool)
    modifies ctx
    ensures match old(ctx.relationEditor)
            case Some(CreateEditor(from, to)) =>
              var p := PlanRelationship(old(ctx.tables), old(ctx.relationships), from, to, opts);
              ok == p.Planned?
              && (!ok ==> ctx.Snapshot() == old(ctx.Snapshot()))
              && (ok ==> exists k :: FirstFree(old(ctx.tables)[p.fromIndex].columns, p.baseName, k)
                                     && ctx.Snapshot() == CloseEditor(Connect(old(ctx.Snapshot()), from, to, opts, p, Candidate(p.baseName, k))))
            case _ => !ok && ctx.Snapshot() == old(ctx.Snapshot())
  {
    ok := false;
    match ctx.relationEditor {
      case Some(CreateEditor(from, to)) =>
        var name;
        ok, name := CreateRelationshipBetweenTables(ctx, from, to, opts);
        if ok {
          CloseRelationEditor(ctx);
        }
      case _ =>
    }
  }

  /** The edit popover is open and its relationship, table and column are
      still there. */
  predicate EditTarget(s: State) {
    s.relationEditor.Some? && s.relationEditor.value.EditEditor?
    && s.relationEditor.value.relIndex < |s.relationships|
    && s.relationEditor.value.tableIndex < |s.tables|
    && s.relationEditor.value.columnIndex < |s.tables[s.relationEditor.value.tableIndex].columns|
  }

  /** Moreover the popover is bound to what its relationship names: the
      first table called `fromTable` and its first column called
      `fromColumn`. */
  predicate EditorBound(s: State) {
    EditTarget(s)
    && var e := s.relationEditor.value;
       var rel := s.relationships[e.relIndex];
       FindTable(s.tables, rel.fromTable) == Some(e.tableIndex)
       && FindColumn(s.tables[e.tableIndex].columns, rel.fromColumn) == Some(e.columnIndex)
  }

  /** `openEditRelationEditor` for the `relIndex`-th relationship. */
  function OpenedEdit(s: State, relIndex: nat): (r: State)
    requires relIndex < |s.relationships|
    ensures r.(relationEditor := s.relationEditor) == s
    ensures r.relationEditor.Some? ==> EditorBound(r) && r.relationEditor.value.relIndex == relIndex
    ensures r.relationEditor.None? <==>
              var rel := s.relationships[relIndex];
              !HasTable(s.tables, rel.fromTable) || !HasTable(s.tables, rel.toTable)
              || FindColumn(s.tables[FindTable(s.tables, rel.fromTable).value].columns, rel.fromColumn).None?
  {
    var s1 := CloseEditor(s);
    var rel := s.relationships[relIndex];
    var fi, ti := FindTable(s.tables, rel.fromTable), FindTable(s.tables, rel.toTable);
    if fi.None? || ti.None? then s1
    else
      match FindColumn(s.tables[fi.value].columns, rel.fromColumn)
      case Some(ci) => s1.(relationEditor := Some(EditEditor(relIndex, fi.value, ci)))
      case None => s1
  }

  method OpenEditRelationEditor(ctx: Context, relIndex: nat)
    requires relIndex < |ctx.relationships|
    modifies ctx
    ensures ctx.Snapshot() == OpenedEdit(old(ctx.Snapshot()), relIndex)
  {
    CloseRelationEditor(ctx);
    var rel := ctx.relationships[relIndex];
    var fi := FindTable(ctx.tables, rel.fromTable);
    var ti := FindTable(ctx.tables, rel.toTable);
    if fi.None? || ti.None? {
      return;
    }
    var ci := FindColumn(ctx.tables[fi.value].columns, rel.fromColumn);
    if ci.None? {
      return;
    }
    ctx.relationEditor := Some(EditEditor(relIndex, fi.value, ci.value));
  }

  /** `columns.filter(c => c.name !== name)`. */
  function ColumnsWithout(cols: seq<Column>, name: string): (r: seq<Column>)
    ensures |r| <= |cols|
    ensures forall i :: 0 <= i < |r| ==> r[i].name != name
  {
    if |cols| == 0 then []
    else (if cols[0].name == name then [] else [cols[0]]) + ColumnsWithout(cols[1..], name)
  }

  /** Filtering out other names does not change which column a name finds. */
  lemma {:induction false} FindColumnWithout(cols: seq<Column>, gone: string, name: string)
    requires name != gone
    ensures var w := ColumnsWithout(cols, gone);
            (FindColumn(w, name).Some? <==> FindColumn(cols, name).Some?)
            && (FindColumn(w, name).Some? ==> w[FindColumn(w, name).value] == cols[FindColumn(cols, name).value])
  {
    if |cols| > 0 {
      var rest := ColumnsWithout(cols[1..], gone);
      if cols[0].name != gone {
        var w := [cols[0]] + rest;
        assert ColumnsWithout(cols, gone) == w;
        if cols[0].name != name {
          FindColumnWithout(cols[1..], gone, name);
          assert w[1..] == rest;
          FindColumnCons(cols[0], rest, name);
        }
      } else {
        FindColumnWithout(cols[1..], gone, name);
        assert ColumnsWithout(cols, gone) == rest;
      }
    }
  }

  lemma FindColumnCons(c: Column, cols: seq<Column>, name: string)
    requires c.name != name
    ensures FindColumn([c] + cols, name) == if FindColumn(cols, name).Some? then Some(FindColumn(cols, name).value + 1) else None
  {
    assert ([c] + cols)[1..] == cols;
  }

  /** `rels.filter(r => r !== rel)` for the relationship at position `k`. */
  function RemoveAt<T>(xs: seq<T>, k: nat): (r: seq<T>)
    requires k < |xs|
    ensures |r| == |xs| - 1
    ensures forall i :: 0 <= i < k ==> r[i] == xs[i]
    ensures forall i :: k <= i < |r| ==> r[i] == xs[i + 1]
  {
    xs[..k] + xs[k + 1..]
  }

  /** The edit popover's delete button: the foreign-key column (every column
      of its name) leaves its table, the relationship leaves the list, the
      popover closes and the editor text is regenerated. */
  function DeleteEdited(s: State): (r: State)
    ensures !EditTarget(s) ==> r == s
  {
    if !EditTarget(s) then s
    else
      var e := s.relationEditor.value;
      var rel := s.relationships[e.relIndex];
      var t := s.tables[e.tableIndex];
      SyncSql(CloseEditor(s.(tables := s.tables[e.tableIndex := t.(columns := ColumnsWithout(t.columns, rel.fromColumn))],
                             relationships := RemoveAt(s.relationships, e.relIndex))))
  }

  /** No other relationship starts at the same column as the `k`-th. */
  predicate SoleFromColumn(rels: seq<Relationship>, k: nat)
    requires k < |rels|
  {
    forall j :: 0 <= j < |rels| && j != k ==>
      !(rels[j].fromTable == rels[k].fromTable && rels[j].fromColumn == rels[k].fromColumn)
  }

  /** Deleting through the popover keeps every remaining relationship backed
      when the deleted one was the only one from its column. */
  lemma DeleteEditedKeepsConsistent(s: State)
    requires EditorBound(s) && Consistent(s.tables, s.relationships)
    requires SoleFromColumn(s.relationships, s.relationEditor.value.relIndex)
    ensures var r := DeleteEdited(s);
            Consistent(r.tables, r.relationships)
            && |r.relationships| == |s.relationships| - 1
            && r.relationEditor.None?
  {
    var e := s.relationEditor.value;
    var rel := s.relationships[e.relIndex];
    var t := s.tables[e.tableIndex];
    var ts := s.tables[e.tableIndex := t.(columns := ColumnsWithout(t.columns, rel.fromColumn))];
    var rels := RemoveAt(s.relationships, e.relIndex);
    forall k | 0 <= k < |rels|
      ensures RelationshipBacked(ts, rels[k])
    {
      var j := if k < e.relIndex then k else k + 1;
      assert rels[k] == s.relationships[j];
      assert RelationshipBacked(s.tables, s.relationships[j]);
      FindTableSameNames(s.tables, ts, rels[k].fromTable);
      if FindTable(s.tables, rels[k].fromTable) == Some(e.tableIndex) {
        assert rels[k].fromTable == rel.fromTable;
        FindColumnWithout(t.columns, rel.fromColumn, rels[k].fromColumn);
      }
    }
  }

  /** The edit popover's delete button, on the page state. */
  method DeleteEditedRelationship(ctx: Context)
    modifies ctx
    ensures ctx.Snapshot() == DeleteEdited(old(ctx.Snapshot()))
  {
    if ctx.relationEditor.None? || !ctx.relationEditor.value.EditEditor? {
      return;
    }
    var e := ctx.relationEditor.value;
    if e.relIndex >= |ctx.relationships| || e.tableIndex >= |ctx.tables|
       || e.columnIndex >= |ctx.tables[e.tableIndex].columns| {
      return;
    }
    var rel := ctx.relationships[e.relIndex];
    var t := ctx.tables[e.tableIndex];
    CommitEdit(ctx, ctx.tables[e.tableIndex := t.(columns := ColumnsWithout(t.columns, rel.fromColumn))],
               RemoveAt(ctx.relationships, e.relIndex));
  }

  /** The common end of the edit popover's buttons: the new tables and
      relationships are stored, the popover closes, the text is regenerated. */
  method CommitEdit(ctx: Context, tables: seq<Table>, rels: seq<Relationship>)
    modifies ctx
    ensures ctx.Snapshot() == SyncSql(CloseEditor(old(ctx.Snapshot()).(tables := tables, relationships := rels)))
  {
    ctx.SetSchema(tables, rels);
    CloseRelationEditor(ctx);
    ctx.UpdateSqlFromState();
  }

  /** The edit popover's duplicate test as the source writes it: another
      column (one not carrying the current name) has the typed name,
      ignoring case. */
  predicate ClashesAsWritten(cols: seq<Column>, current: string, typed: string) {
    exists i :: 0 <= i < |cols| && cols[i].name != current && Lower(cols[i].name) == Lower(typed)
  }

  /** The duplicate test on the name that is actually stored, the sanitized one. */
  predicate Clashes(cols: seq<Column>, current: string, typed: string) {
    exists i :: 0 <= i < |cols| && cols[i].name != current && Lower(cols[i].name) == SanitizeColumnName(typed)
  }

  /** The update `onSave` makes once its checks pass: the foreign-key column
      gets the sanitized name, the kind and the requiredness and references
      the chosen column; the relationship follows; the popover closes. */
  function SavedEdit(s: State, target: string, typed: string, kind: string, required: bool): State
    requires EditTarget(s)
  {
    var e := s.relationEditor.value;
    var rel := s.relationships[e.relIndex];
    var t := s.tables[e.tableIndex];
    var c := t.columns[e.columnIndex].(name := SanitizeColumnName(typed), unique := kind == "one_to_one",
                                       notNull := required, refColumn := Some(target));
    SyncSql(CloseEditor(s.(tables := s.tables[e.tableIndex := t.(columns := t.columns[e.columnIndex := c])],
                           relationships := s.relationships[e.relIndex := rel.(fromColumn := c.name, toColumn := target)])))
  }

  /** `onSave` as written: an empty trimmed name or a clash of the typed name
      leaves everything as it is, popover included. */
  function SaveEditAsWritten(s: State, target: string, fkInput: string, kind: string, required: bool): State {
    if !EditTarget(s) then s
    else
      var e := s.relationEditor.value;
      var typed := Trim(fkInput);
      if typed == "" then s
      else if ClashesAsWritten(s.tables[e.tableIndex].columns, s.relationships[e.relIndex].fromColumn, typed) then s
      else SavedEdit(s, target, typed, kind, required)
  }

  /** `onSave` with the duplicate test made on the stored name. */
  function SaveEdit(s: State, target: string, fkInput: string, kind: string, required: bool): (r: State)
    ensures !EditTarget(s) || Trim(fkInput) == "" ==> r == s
  {
    if !EditTarget(s) then s
    else
      var e := s.relationEditor.value;
      var typed := Trim(fkInput);
      if typed == "" then s
      else if Clashes(s.tables[e.tableIndex].columns, s.relationships[e.relIndex].fromColumn, typed) then s
      else SavedEdit(s, target, typed, kind, required)
  }

  /** A clash on the stored name changes nothing; otherwise the column and
      its relationship take the same sanitized name and the same target,
      the kind and requiredness are set, and the popover closes. */
  lemma SaveEditStores(s: State, target: string, fkInput: string, kind: string, required: bool)
    requires EditTarget(s)
    ensures var r := SaveEdit(s, target, fkInput, kind, required);
            var e := s.relationEditor.value;
            var clash := Clashes(s.tables[e.tableIndex].columns, s.relationships[e.relIndex].fromColumn, Trim(fkInput));
            (clash ==> r == s)
            && (Trim(fkInput) != "" && !clash ==>
                  |r.tables| == |s.tables| && |r.relationships| == |s.relationships|
                  && |r.tables[e.tableIndex].columns| == |s.tables[e.tableIndex].columns|
                  && r.relationEditor.None?
                  && var c, rel := r.tables[e.tableIndex].columns[e.columnIndex], r.relationships[e.relIndex];
                     c.name == SanitizeColumnName(Trim(fkInput)) && rel.fromColumn == c.name
                     && c.refColumn == Some(target) && rel.toColumn == target
                     && rel.fromTable == s.relationships[e.relIndex].fromTable
                     && rel.toTable == s.relationships[e.relIndex].toTable
                     && c.unique == (kind == "one_to_one") && c.notNull == required)
  {
    var e := s.relationEditor.value;
    var typed := Trim(fkInput);
    if typed != "" && !Clashes(s.tables[e.tableIndex].columns, s.relationships[e.relIndex].fromColumn, typed) {
      SavedEditStores(s, target, typed, kind, required);
    }
  }

  /** The update itself: what the column and the relationship become. */
  lemma SavedEditStores(s: State, target: string, typed: string, kind: string, required: bool)
    requires EditTarget(s)
    ensures var r := SavedEdit(s, target, typed, kind, required);
            var e := s.relationEditor.value;
            |r.tables| == |s.tables| && |r.relationships| == |s.relationships|
            && |r.tables[e.tableIndex].columns| == |s.tables[e.tableIndex].columns|
            && r.relationEditor.None?
            && var c, rel := r.tables[e.tableIndex].columns[e.columnIndex], r.relationships[e.relIndex];
               c.name == SanitizeColumnName(typed) && rel.fromColumn == c.name
               && c.refColumn == Some(target) && rel.toColumn == target
               && rel.fromTable == s.relationships[e.relIndex].fromTable
               && rel.toTable == s.relationships[e.relIndex].toTable
               && c.unique == (kind == "one_to_one") && c.notNull == required
  {
    var e := s.relationEditor.value;
    var rel := s.relationships[e.relIndex];
    var t := s.tables[e.tableIndex];
    var c := t.columns[e.columnIndex].(name := SanitizeColumnName(typed), unique := kind == "one_to_one",
                                       notNull := required, refColumn := Some(target));
    var ts := s.tables[e.tableIndex := t.(columns := t.columns[e.columnIndex := c])];
    var rs := s.relationships[e.relIndex := rel.(fromColumn := c.name, toColumn := target)];
    var r := SavedEdit(s, target, typed, kind, required);
    assert r.tables == ts && r.relationships == rs && r.relationEditor.None?;
  }

  /** No two columns share a name, ignoring case. */
  predicate DistinctColumnNames(cols: seq<Column>) {
    forall i, j :: 0 <= i < j < |cols| ==> Lower(cols[i].name) != Lower(cols[j].name)
  }

  /** Saving keeps the column names of the edited table distinct. */
  lemma SaveEditKeepsNamesDistinct(s: State, target: string, fkInput: string, kind: string, required: bool)
    requires EditorBound(s)
    requires DistinctColumnNames(s.tables[s.relationEditor.value.tableIndex].columns)
    ensures var r := SaveEdit(s, target, fkInput, kind, required);
            |r.tables| == |s.tables|
            && DistinctColumnNames(r.tables[s.relationEditor.value.tableIndex].columns)
  {
    var e := s.relationEditor.value;
    var cols := s.tables[e.tableIndex].columns;
    var typed := Trim(fkInput);
    if typed != "" && !Clashes(cols, s.relationships[e.relIndex].fromColumn, typed) {
      var n := SanitizeColumnName(typed);
      LowerNameChars(n);
      var cols' := cols[e.columnIndex := cols[e.columnIndex].(name := n, unique := kind == "one_to_one",
                                                             notNull := required, refColumn := Some(target))];
      assert SaveEdit(s, target, fkInput, kind, required).tables[e.tableIndex].columns == cols';
      forall i | 0 <= i < |cols| && i != e.columnIndex
        ensures Lower(cols[i].name) != n
      {
        if i < e.columnIndex {
          assert Lower(cols[i].name) != Lower(cols[e.columnIndex].name);
        } else {
          assert Lower(cols[e.columnIndex].name) != Lower(cols[i].name);
        }
      }
      forall i, j | 0 <= i < j < |cols'|
        ensures Lower(cols'[i].name) != Lower(cols'[j].name)
      {
        if i != e.columnIndex && j != e.columnIndex {
          assert cols'[i] == cols[i] && cols'[j] == cols[j];
        }
      }
    }
  }

  /** Saving through the popover keeps every relationship backed when the
      edited relationship is the only one from its column. */
  lemma SaveEditKeepsConsistent(s: State, target: string, fkInput: string, kind: string, required: bool)
    requires EditorBound(s) && Consistent(s.tables, s.relationships)
    requires SoleFromColumn(s.relationships, s.relationEditor.value.relIndex)
    ensures var r := SaveEdit(s, target, fkInput, kind, required);
            Consistent(r.tables, r.relationships)
  {
    var e := s.relationEditor.value;
    var cols := s.tables[e.tableIndex].columns;
    var current := s.relationships[e.relIndex].fromColumn;
    var typed := Trim(fkInput);
    if typed != "" && !Clashes(cols, current, typed) {
      var n := SanitizeColumnName(typed);
      LowerNameChars(n);
      forall i | 0 <= i < |cols| && cols[i].name != current
        ensures cols[i].name != n
      {
        assert Lower(cols[i].name) != n;
      }
      var t := s.tables[e.tableIndex];
      var c := cols[e.columnIndex].(name := n, unique := kind == "one_to_one", notNull := required, refColumn := Some(target));
      EditedColumnKeepsConsistent(s.tables, s.relationships, e.tableIndex, e.columnIndex, e.relIndex, c, target);
      assert SaveEdit(s, target, fkInput, kind, required).tables == s.tables[e.tableIndex := t.(columns := cols[e.columnIndex := c])];
    }
  }

  /** The schema half of `SaveEditKeepsConsistent`: the relationship at
      `ri`, bound to column `ci` of table `ti`, moves with that column to a
      new name no column of another name has, and to a new target. */
  lemma EditedColumnKeepsConsistent(tables: seq<Table>, rels: seq<Relationship>, ti: nat, ci: nat, ri: nat, c: Column, target: string)
    requires ti < |tables| && ci < |tables[ti].columns| && ri < |rels|
    requires Consistent(tables, rels) && SoleFromColumn(rels, ri)
    requires FindTable(tables, rels[ri].fromTable) == Some(ti)
    requires FindColumn(tables[ti].columns, rels[ri].fromColumn) == Some(ci)
    requires var old_ := tables[ti].columns[ci];
             c.fk == old_.fk && c.refTable == old_.refTable && c.refColumn == Some(target)
    requires forall i :: 0 <= i < |tables[ti].columns| && tables[ti].columns[i].name != rels[ri].fromColumn ==>
               tables[ti].columns[i].name != c.name
    ensures var cols := tables[ti].columns;
            Consistent(tables[ti := tables[ti].(columns := cols[ci := c])],
                       rels[ri := rels[ri].(fromColumn := c.name, toColumn := target)])
  {
    var cols := tables[ti].columns;
    var cols' := cols[ci := c];
    var ts := tables[ti := tables[ti].(columns := cols')];
    var rels' := rels[ri := rels[ri].(fromColumn := c.name, toColumn := target)];
    assert SameNames(tables, ts);
    assert RelationshipBacked(tables, rels[ri]);
    forall k | 0 <= k < |rels'|
      ensures RelationshipBacked(ts, rels'[k])
    {
      FindTableSameNames(tables, ts, rels'[k].fromTable);
      if k == ri {
        FindColumnRenamed(cols, ci, c);
      } else {
        assert RelationshipBacked(tables, rels[k]);
        if FindTable(tables, rels[k].fromTable) == Some(ti) {
          var y := rels[k].fromColumn;
          assert y != rels[ri].fromColumn;
          var ci2 := FindColumn(cols, y).value;
          assert cols[ci2].name == y;
          FindColumnOther(cols, ci, c, y);
        }
      }
    }
  }

  /** The column at `ci` renamed to a name no earlier column has is what
      that name finds. */
  lemma FindColumnRenamed(cols: seq<Column>, ci: nat, c: Column)
    requires ci < |cols|
    requires forall i :: 0 <= i < ci ==> cols[i].name != c.name
    ensures FindColumn(cols[ci := c], c.name) == Some(ci)
  {
    var cols' := cols[ci := c];
    assert cols'[ci].name == c.name;
    assert forall i :: 0 <= i < ci ==> cols'[i].name != c.name;
  }

  /** A name that neither the old nor the new column at `ci` carries finds
      the same column after the update. */
  lemma FindColumnOther(cols: seq<Column>, ci: nat, c: Column, y: string)
    requires ci < |cols| && cols[ci].name != y && c.name != y
    ensures FindColumn(cols[ci := c], y) == FindColumn(cols, y)
    ensures FindColumn(cols, y).Some? ==> cols[ci := c][FindColumn(cols, y).value] == cols[FindColumn(cols, y).value]
  {
    var cols' := cols[ci := c];
    assert forall i :: 0 <= i < |cols| ==> (cols'[i].name == y <==> cols[i].name == y);
  }

  /** As written, saving gives the edited table two columns of one name
      whenever the sanitized form of the typed name is another column's name
      but the typed name itself, ignoring case, is not. */
  lemma SaveEditAsWrittenDuplicates(s: State, target: string, fkInput: string, kind: string, required: bool, other: nat)
    requires EditorBound(s)
    requires var e := s.relationEditor.value;
             var cols := s.tables[e.tableIndex].columns;
             var typed := Trim(fkInput);
             typed != "" && !ClashesAsWritten(cols, s.relationships[e.relIndex].fromColumn, typed)
             && other < |cols| && other != e.columnIndex && cols[other].name == SanitizeColumnName(typed)
    ensures !DistinctColumnNames(SaveEditAsWritten(s, target, fkInput, kind, required).tables[s.relationEditor.value.tableIndex].columns)
  {
    var e := s.relationEditor.value;
    var cols' := SaveEditAsWritten(s, target, fkInput, kind, required).tables[e.tableIndex].columns;
    assert cols'[other].name == cols'[e.columnIndex].name;
    if other < e.columnIndex {
      assert Lower(cols'[other].name) == Lower(cols'[e.columnIndex].name);
    } else {
      assert Lower(cols'[e.columnIndex].name) == Lower(cols'[other].name);
    }
  }

  /** An instance: with columns `user_id` and `author` and the popover on
      `author`, typing `User Id` passes the test (`user id` is not `user_id`)
      and is stored as `user_id`. */
  lemma ClashExample()
    ensures var s := ClashState();
            var cols := s.tables[0].columns;
            EditorBound(s) && DistinctColumnNames(cols) && s.relationEditor.value.tableIndex == 0
            && s.relationEditor.value.columnIndex == 1
            && Trim("User Id") != "" && !ClashesAsWritten(cols, s.relationships[0].fromColumn, Trim("User Id"))
            && cols[0].name == SanitizeColumnName(Trim("User Id"))
  {
    ClashBound();
    ClashColumns(ClashState().tables[0].columns);
  }

  lemma ClashBound()
    ensures EditorBound(ClashState())
  {
    var s := ClashState();
    var cols := s.tables[0].columns;
    assert cols[0].name != "author";
    assert FindColumn(cols[1..], "author") == Some(0);
    assert FindColumn(cols, "author") == Some(1);
    assert FindTable(s.tables, "posts") == Some(0);
  }

  lemma ClashColumns(cols: seq<Column>)
    requires |cols| == 2 && cols[0].name == "user_id" && cols[1].name == "author"
    ensures DistinctColumnNames(cols)
    ensures Trim("User Id") != "" && !ClashesAsWritten(cols, "author", Trim("User Id"))
    ensures cols[0].name == SanitizeColumnName(Trim("User Id"))
  {
    SanitizeUserId();
    TrimUserId();
    assert |Lower(cols[0].name)| != |Lower(cols[1].name)|;
    forall i, j | 0 <= i < j < |cols|
      ensures Lower(cols[i].name) != Lower(cols[j].name)
    {
      assert i == 0 && j == 1;
    }
    NoClashAsWritten(cols);
  }

  lemma NoClashAsWritten(cols: seq<Column>)
    requires |cols| == 2 && cols[0].name == "user_id" && cols[1].name == "author"
    ensures !ClashesAsWritten(cols, "author", "User Id")
  {
    var typed := Lower("User Id");
    assert typed[4] == ' ';
    forall i | 0 <= i < |cols| && cols[i].name != "author"
      ensures Lower(cols[i].name) != typed
    {
      assert Lower(cols[0].name)[4] == '_';
    }
  }

  lemma TrimUserId()
    ensures Trim("User Id") == "User Id"
  {
    TrimNoSpace("User Id");
  }

  lemma SanitizeUserId()
    ensures SanitizeColumnName("User Id") == "user_id"
  {
    LowerUserId();
    MapUserId();
    UserIdSanitized();
    assert Stripped("User Id") == "user_id";
  }

  lemma LowerUserId()
    ensures Lower("User Id") == "user id"
  {
    var low := Lower("User Id");
    assert forall i :: 0 <= i < 7 ==> low[i] == "user id"[i];
  }

  lemma MapUserId()
    ensures MapNameChars("user id") == "user_id"
  {
    var m := MapNameChars("user id");
    assert forall i :: 0 <= i < 7 ==> m[i] == "user_id"[i];
  }

  lemma UserIdSanitized()
    ensures DropTrailingUnderscores(DropLeadingUnderscores(CollapseUnderscores("user_id"))) == "user_id"
  {
    var w := "user_id";
    assert |w| == 7 && w[0] == 'u' && w[6] == 'd';
    assert NoDoubleUnderscore(w) by {
      assert forall i :: 0 <= i < 6 ==> !(w[i] == '_' && w[i + 1] == '_') by {
        assert w[3] == 'r' && w[5] == 'i';
      }
    }
    var c := CollapseUnderscores(w);
    assert c == w;
    var d := DropLeadingUnderscores(c);
    assert d == w;
  }

  /** The state of that example: table `posts` with `user_id` and the
      foreign key `author`, and the popover open on `author`. */
  function ClashState(): State {
    var author := Column("author", "int", false, false, false, false, None, true, Some("users"), Some("id"), None);
    var posts := Table("posts", [PlainColumn("user_id", "int", false), author], [], "", None, None, 0.0, 0.0, None);
    var users := Table("users", [PlainColumn("id", "int", true)], [], "", None, None, 0.0, 0.0, None);
    State([posts, users], [Relationship("posts", "author", "users", "id")], 1.0, 0.0, 0.0, [], None, false,
          None, None, Some(EditEditor(0, 0, 1)), Point(0.0, 0.0), Point(0.0, 0.0), true, None, None, None,
          "", None, false, false, map[], None, false, [])
  }

  /** The edit popover's save button, on the page state, with the corrected
      duplicate test. */
  method SaveEditedRelationship(ctx: Context, target: string, fkInput: string, kind: string, required: bool)
    modifies ctx
    ensures ctx.Snapshot() == SaveEdit(old(ctx.Snapshot()), target, fkInput, kind, required)
  {
    ghost var s0 := ctx.Snapshot();
    if ctx.relationEditor.None? || !ctx.relationEditor.value.EditEditor? {
      return;
    }
    var e := ctx.relationEditor.value;
    if e.relIndex >= |ctx.relationships| || e.tableIndex >= |ctx.tables|
       || e.columnIndex >= |ctx.tables[e.tableIndex].columns| {
      return;
    }
    var typed := Trim(fkInput);
    if typed == "" {
      return;
    }
    var rel := ctx.relationships[e.relIndex];
    var t := ctx.tables[e.tableIndex];
    if Clashes(t.columns, rel.fromColumn, typed) {
      return;
    }
    var c := t.columns[e.columnIndex].(name := SanitizeColumnName(typed), unique := kind == "one_to_one",
                                       notNull := required, refColumn := Some(target));
    assert EditTarget(s0);
    assert SaveEdit(s0, target, fkInput, kind, required) == SavedEdit(s0, target, typed, kind, required);
    CommitEdit(ctx, ctx.tables[e.tableIndex := t.(columns := t.columns[e.columnIndex := c])],
               ctx.relationships[e.relIndex := rel.(fromColumn := c.name, toColumn := target)]);
  }

  // ---------------------------------------------------------------------
  // The connection draft
  // ---------------------------------------------------------------------

  /** `cancelConnectionDraft`. */
  method CancelConnectionDraft(ctx: Context)
    modifies ctx
    ensures ctx.Snapshot() == CancelDraft(old(ctx.Snapshot()))
  {
    if ctx.connectionDraft.Some? {
      ctx.connectionDraft := None;
    }
  }

  /** `startConnectionFromTable` for the table at position `ti`, with the
      pointer's world position `p`: only the main button starts a draft; an
      existing draft is dropped and an open popover closed; the new draft
      leaves from the side facing the pointer, at that side's midpoint, and
      registers its listeners on `document` after those still registered. */
  function StartedDraft(s: State, ti: nat, button: int, pointerId: int, p: Point): (r: State)
    requires ti < |s.tables|
    ensures button != 0 ==> r == s
    ensures button == 0 ==>
              r.relationEditor.None?
              && r.connectionDraft.Some? && r.connectionDraft.value.pointerId == pointerId
              && r.connectionDraft.value.fromTable == s.tables[ti].name
              && r.connectionDraft.value.fromPoint == BoundaryAnchor(s.tables[ti], r.connectionDraft.value.fromSide)
              && r.connectionDraft.value.fromSide == ChooseSideToPoint(s.tables[ti], p)
              && r.connectionDraft.value.targetTable.None?
              && r.draftListeners == s.draftListeners + [s.tables[ti].name]
              && r.(connectionDraft := s.connectionDraft, relationEditor := s.relationEditor,
                    draftListeners := s.draftListeners) == s
  {
    if button != 0 then s
    else
      var t := s.tables[ti];
      var side := ChooseSideToPoint(t, p);
      CloseEditor(CancelDraft(s)).(connectionDraft := Some(Draft(pointerId, t.name, BoundaryAnchor(t, side), side, p, None)),
                                   draftListeners := s.draftListeners + [t.name])
  }

  method StartConnectionFromTable(ctx: Context, ti: nat, button: int, pointerId: int, p: Point)
    requires ti < |ctx.tables|
    modifies ctx
    ensures ctx.Snapshot() == StartedDraft(old(ctx.Snapshot()), ti, button, pointerId, p)
  {
    if button != 0 {
      return;
    }
    ghost var s0 := ctx.Snapshot();
    if ctx.connectionDraft.Some? {
      CancelConnectionDraft(ctx);
    }
    assert ctx.Snapshot() == CancelDraft(s0);
    if ctx.relationEditor.Some? {
      CloseRelationEditor(ctx);
    }
    assert ctx.Snapshot() == CloseEditor(CancelDraft(s0));
    var t := ctx.tables[ti];
    var side := ChooseSideToPoint(t, p);
    ctx.BeginDraft(Draft(pointerId, t.name, BoundaryAnchor(t, side), side, p, None));
  }

  /** The table under `p`, when it is another table than `fromTable`. */
  function DropTarget(tables: seq<Table>, p: Point, fromTable: string): (r: Option<string>)
    ensures r.Some? <==> TopmostAt(tables, p).Some? && tables[TopmostAt(tables, p).value].name != fromTable
    ensures r.Some? ==> r.value == tables[TopmostAt(tables, p).value].name
  {
    match TopmostAt(tables, p)
    case Some(i) => if tables[i].name != fromTable then Some(tables[i].name) else None
    case None => None
  }

  /** A pointer move runs every registered move listener in turn. Each
      checks only that a draft exists and belongs to the pointer, then sets
      the draft's point and notes the table under the pointer unless that is
      its own source table; so the newest listener's note stands. Another
      pointer changes nothing. */
  function MovedDraft(s: State, pointerId: int, p: Point): (r: State)
    ensures s.connectionDraft.None? || s.connectionDraft.value.pointerId != pointerId || |s.draftListeners| == 0 ==> r == s
    ensures s.connectionDraft.Some? && s.connectionDraft.value.pointerId == pointerId && |s.draftListeners| > 0 ==>
              r == s.(connectionDraft := Some(s.connectionDraft.value.(
                     currentPoint := p,
                     targetTable := DropTarget(s.tables, p, s.draftListeners[|s.draftListeners| - 1]))))
  {
    match s.connectionDraft
    case None => s
    case Some(d) =>
      if d.pointerId != pointerId || |s.draftListeners| == 0 then s
      else
        var newest := s.draftListeners[|s.draftListeners| - 1];
        s.(connectionDraft := Some(d.(currentPoint := p, targetTable := DropTarget(s.tables, p, newest))))
  }

  /** The newest listeners are the draft's own, so a move notes the target
      as seen from the draft's source table. */
  lemma StartedMoveOwnTarget(s: State, ti: nat, pointerId: int, q: Point, p: Point)
    requires ti < |s.tables|
    ensures var r := MovedDraft(StartedDraft(s, ti, 0, pointerId, q), pointerId, p);
            r.connectionDraft.Some?
            && r.connectionDraft.value.targetTable == DropTarget(s.tables, p, s.tables[ti].name)
  {
  }

  method DraftPointerMove(ctx: Context, pointerId: int, p: Point)
    modifies ctx
    ensures ctx.Snapshot() == MovedDraft(old(ctx.Snapshot()), pointerId, p)
  {
    if ctx.connectionDraft.None? || ctx.connectionDraft.value.pointerId != pointerId || |ctx.draftListeners| == 0 {
      return;
    }
    var d := ctx.connectionDraft.value;
    var newest := ctx.draftListeners[|ctx.draftListeners| - 1];
    var target := FindTableAtWorldPoint(ctx.tables, p);
    var name := if target.Some? && ctx.tables[target.value].name != newest then Some(ctx.tables[target.value].name) else None;
    ctx.connectionDraft := Some(d.(currentPoint := p, targetTable := name));
  }

  /** A release (or a cancelled pointer) runs the registered `pointerup`
      listeners oldest first. The first passes the check, which looks only
      at the current draft's pointer, and finishes the draft with its own
      source table: it drops the draft, removes its own listeners, and over
      another table than its source opens the new-relationship popover with
      the roles swapped, the table dropped on holding the foreign key. The
      later listeners then find no draft. */
  function FinishedDraft(s: State, pointerId: int, p: Point, canceled: bool): (r: State)
  {
    match s.connectionDraft
    case None => s
    case Some(d) =>
      if d.pointerId != pointerId || |s.draftListeners| == 0 then s
      else
        var from := s.draftListeners[0];
        var s1 := s.(connectionDraft := None, draftListeners := s.draftListeners[1..]);
        match DropTarget(s.tables, p, from)
        case None => s1
        case Some(target) => if canceled then s1 else OpenedCreate(s1, target, from)
  }

  /** Releasing a draft: another pointer changes nothing; otherwise the draft
      and the oldest registered listeners are gone, and a popover is open
      only after a release over another table than the oldest listener's
      source, proposing a foreign key in that table to that source. */
  lemma FinishedDraftOutcome(s: State, pointerId: int, p: Point, canceled: bool)
    ensures var r := FinishedDraft(s, pointerId, p, canceled);
            (s.connectionDraft.None? || s.connectionDraft.value.pointerId != pointerId || |s.draftListeners| == 0 ==> r == s)
            && (s.connectionDraft.Some? && s.connectionDraft.value.pointerId == pointerId && |s.draftListeners| > 0 ==>
                  var from := s.draftListeners[0];
                  var target := DropTarget(s.tables, p, from);
                  var s1 := s.(connectionDraft := None, draftListeners := s.draftListeners[1..]);
                  r.connectionDraft.None? && r.draftListeners == s.draftListeners[1..]
                  && r.tables == s.tables && r.relationships == s.relationships
                  && (canceled || target.None? ==> r == s1)
                  && (!canceled && target.Some? ==>
                        r.(relationEditor := s.relationEditor) == s1
                        && (r.relationEditor.Some? <==>
                              (HasTable(s.tables, from) && |s.tables[FindTable(s.tables, from).value].columns| > 0))
                        && (r.relationEditor.Some? ==> r.relationEditor == Some(CreateEditor(target.value, from)))))
  {
    match s.connectionDraft
    case None =>
    case Some(d) =>
      if d.pointerId == pointerId && |s.draftListeners| > 0 {
        var vt := DropTarget(s.tables, p, s.draftListeners[0]);
        if vt.Some? {
          assert HasTable(s.tables, vt.value) by {
            assert s.tables[TopmostAt(s.tables, p).value].name == vt.value;
          }
        }
      }
  }

  method DraftPointerUp(ctx: Context, pointerId: int, p: Point, canceled: bool)
    modifies ctx
    ensures ctx.Snapshot() == FinishedDraft(old(ctx.Snapshot()), pointerId, p, canceled)
  {
    if ctx.connectionDraft.None? || ctx.connectionDraft.value.pointerId != pointerId || |ctx.draftListeners| == 0 {
      return;
    }
    ghost var s0 := ctx.Snapshot();
    var from := ctx.draftListeners[0];
    var target := FindTableAtWorldPoint(ctx.tables, p);
    var valid := if target.Some? && ctx.tables[target.value].name != from then Some(ctx.tables[target.value].name) else None;
    assert valid == DropTarget(s0.tables, p, from);
    ctx.DropDraft();
    if canceled || valid.None? {
      return;
    }
    OpenRelationEditor(ctx, valid.value, from);
  }

  // ---------------------------------------------------------------------
  // Stale draft listeners
  // ---------------------------------------------------------------------

  /** As written, a draft dropped by `cancelConnectionDraft` (Escape, Clear,
      a parse run, deleting its table, or a new draft) keeps its listeners.
      Start a draft from table `a` at `ia`, cancel it, then start one from
      table `b` at `ib` with the same pointer and release it over a third
      table `c`: the first draft's listener finishes the second draft, and
      the popover proposes a foreign key in `c` to `a`, where the draft the
      user made leaves from `b`. */
  lemma StaleListenerFinishes(s: State, ia: nat, ib: nat, pointerId: int, qa: Point, qb: Point, p: Point)
    requires ia < |s.tables| && ib < |s.tables|
    requires s.connectionDraft.None? && s.draftListeners == []
    requires TopmostAt(s.tables, p).Some?
    requires var a, b, c := s.tables[ia].name, s.tables[ib].name, s.tables[TopmostAt(s.tables, p).value].name;
             c != a && c != b && |s.tables[FindTable(s.tables, a).value].columns| > 0
    ensures var a, c := s.tables[ia].name, s.tables[TopmostAt(s.tables, p).value].name;
            var s2 := StartedDraft(CancelDraft(StartedDraft(s, ia, 0, pointerId, qa)), ib, 0, pointerId, qb);
            s2.draftListeners == [a, s.tables[ib].name]
            && FinishedDraft(s2, pointerId, p, false).relationEditor == Some(CreateEditor(c, a))
  {
    var a := s.tables[ia].name;
    var s2 := StartedDraft(CancelDraft(StartedDraft(s, ia, 0, pointerId, qa)), ib, 0, pointerId, qb);
    assert s2.tables == s.tables;
    assert HasTable(s.tables, a) by {
      assert s.tables[ia].name == a;
    }
    FinishedDraftOutcome(s2, pointerId, p, false);
  }

  /** The same sequence released over `b` itself: the stale listener sees
      another table than its own source, so the popover proposes a key in
      `b` to `a`, where the draft the user made would have been cancelled. */
  lemma StaleListenerOverOwnTable(s: State, ia: nat, ib: nat, pointerId: int, qa: Point, qb: Point, p: Point)
    requires ia < |s.tables| && ib < |s.tables|
    requires s.connectionDraft.None? && s.draftListeners == []
    requires TopmostAt(s.tables, p) == Some(ib)
    requires var a := s.tables[ia].name;
             a != s.tables[ib].name && |s.tables[FindTable(s.tables, a).value].columns| > 0
    ensures var a, b := s.tables[ia].name, s.tables[ib].name;
            var s2 := StartedDraft(CancelDraft(StartedDraft(s, ia, 0, pointerId, qa)), ib, 0, pointerId, qb);
            FinishedDraft(s2, pointerId, p, false).relationEditor == Some(CreateEditor(b, a))
            && FinishedOwnDraft(s2, pointerId, p, false).relationEditor.None?
  {
    var a := s.tables[ia].name;
    var s2 := StartedDraft(CancelDraft(StartedDraft(s, ia, 0, pointerId, qa)), ib, 0, pointerId, qb);
    assert s2.tables == s.tables;
    assert HasTable(s.tables, a) by {
      assert s.tables[ia].name == a;
    }
    FinishedDraftOutcome(s2, pointerId, p, false);
  }

  /** The release as intended: the draft is finished with its own source
      table, and its listeners go with it. */
  function FinishedOwnDraft(s: State, pointerId: int, p: Point, canceled: bool): (r: State)
  {
    match s.connectionDraft
    case None => s
    case Some(d) =>
      if d.pointerId != pointerId then s
      else
        var s1 := s.(connectionDraft := None, draftListeners := []);
        match DropTarget(s.tables, p, d.fromTable)
        case None => s1
        case Some(target) => if canceled then s1 else OpenedCreate(s1, target, d.fromTable)
  }

  /** Releasing a draft as intended: another pointer changes nothing;
      otherwise no draft and no listener is left, and a popover is open only
      after a release over another table, proposing a foreign key in that
      table to the table the drag started from. */
  lemma FinishedOwnDraftOutcome(s: State, pointerId: int, p: Point, canceled: bool)
    ensures var r := FinishedOwnDraft(s, pointerId, p, canceled);
            (s.connectionDraft.None? || s.connectionDraft.value.pointerId != pointerId ==> r == s)
            && (s.connectionDraft.Some? && s.connectionDraft.value.pointerId == pointerId ==>
                  var d := s.connectionDraft.value;
                  var target := DropTarget(s.tables, p, d.fromTable);
                  r.connectionDraft.None? && r.draftListeners == []
                  && r.tables == s.tables && r.relationships == s.relationships
                  && (canceled || target.None? ==> r == s.(connectionDraft := None, draftListeners := []))
                  && (!canceled && target.Some? ==>
                        (r.relationEditor.Some? <==>
                           (HasTable(s.tables, d.fromTable) && |s.tables[FindTable(s.tables, d.fromTable).value].columns| > 0))
                        && (r.relationEditor.Some? ==> r.relationEditor == Some(CreateEditor(target.value, d.fromTable)))))
  {
    match s.connectionDraft
    case None =>
    case Some(d) =>
      if d.pointerId == pointerId {
        var vt := DropTarget(s.tables, p, d.fromTable);
        if vt.Some? {
          assert HasTable(s.tables, vt.value) by {
            assert s.tables[TopmostAt(s.tables, p).value].name == vt.value;
          }
        }
      }
  }

  /** The draft's listeners are exactly its own: none without a draft, the
      draft's own while it lasts. */
  predicate OwnListener(s: State) {
    match s.connectionDraft
    case None => s.draftListeners == []
    case Some(d) => s.draftListeners == [d.fromTable]
  }

  /** The corrected `cancelConnectionDraft`: the draft's listeners are
      removed with it. */
  function CancelDraftReleasing(s: State): (r: State)
    ensures OwnListener(r) && r.connectionDraft.None?
    ensures r.(connectionDraft := s.connectionDraft, draftListeners := s.draftListeners) == s
  {
    s.(connectionDraft := None, draftListeners := [])
  }

  /** With every cancel removing the listeners, each draft has only its own:
      starting after such a cancel, moving and releasing all keep it so. */
  lemma OwnListenerKept(s: State, ti: nat, pointerId: int, q: Point, other: int, p: Point, canceled: bool)
    requires ti < |s.tables| && OwnListener(s)
    ensures OwnListener(StartedDraft(CancelDraftReleasing(s), ti, 0, pointerId, q))
    ensures OwnListener(MovedDraft(s, other, p))
    ensures OwnListener(FinishedDraft(s, other, p, canceled))
  {
    var r := FinishedDraft(s, other, p, canceled);
    FinishedDraftOutcome(s, other, p, canceled);
    if s.connectionDraft.Some? && s.connectionDraft.value.pointerId == other {
      assert r.connectionDraft.None? && r.draftListeners == [];
    }
  }

  /** With only the draft's own listeners registered, the page's release is
      the intended one. */
  lemma OwnListenerFinishes(s: State, pointerId: int, p: Point, canceled: bool)
    requires OwnListener(s)
    ensures FinishedDraft(s, pointerId, p, canceled) == FinishedOwnDraft(s, pointerId, p, canceled)
  {
    if s.connectionDraft.Some? {
      assert s.draftListeners[1..] == [];
    }
  }
}
