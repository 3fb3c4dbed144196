/** The add/edit table modal (`modals.js`): the icon and colour choices and
    the state logic of saving the modal. */
module Modals {
  import opened Wrappers
  import opened Text
  import opened Schema
  import opened Session
  import opened Relationships
  import opened Tables
  import opened Html

  /** The icon swatches of the picker, `TABLE_ICONS`. */
  const TableIcons: seq<string> := [
    "fa-table", "fa-users", "fa-user", "fa-shopping-cart", "fa-box", "fa-file-alt",
    "fa-comment", "fa-tags", "fa-cog", "fa-lock", "fa-credit-card", "fa-envelope",
    "fa-image", "fa-map-marker-alt", "fa-calendar", "fa-chart-bar", "fa-bell", "fa-star",
    "fa-folder", "fa-database"]

  /** The colour swatches of the picker, `TABLE_COLORS`; the first is the
      "no colour" swatch. */
  const TableColors: seq<Option<string>> := [
    None, Some("#ef4444"), Some("#f97316"), Some("#eab308"), Some("#22c55e"),
    Some("#06b6d4"), Some("#3b82f6"), Some("#8b5cf6"), Some("#ec4899"), Some("#64748b")]

  /** `renderIconPicker(selectedIcon)`: the `data-icon` of the swatch it marks
      selected. A swatch is selected only when its value is exactly the
      requested icon, so an icon outside the palette selects none. */
  function IconSwatch(selectedIcon: string): (r: Option<string>)
    ensures r.Some? <==> selectedIcon in TableIcons
    ensures r.Some? ==> r.value == selectedIcon
  {
    if selectedIcon in TableIcons then Some(selectedIcon) else None
  }

  /** `renderColorPicker(selectedColor)`: the `data-color` of the swatch it
      marks selected, which is empty for the "no colour" swatch. Only an
      exact match with a palette entry is selected. */
  function ColourSwatch(selectedColor: Option<string>): (r: Option<string>)
    ensures r.Some? <==> selectedColor in TableColors
    ensures r.Some? && selectedColor.Some? ==> r.value == selectedColor.value
    ensures r.Some? && selectedColor.None? ==> r.value == ""
  {
    if selectedColor in TableColors then Some(if selectedColor.Some? then selectedColor.value else "") else None
  }

  /** `getSelectedIcon`: the picked icon, `fa-table` when none is picked. */
  function IconChoice(picked: Option<string>): (r: string)
    ensures picked.Some? ==> r == picked.value
    ensures picked.None? ==> r == "fa-table"
  {
    if picked.Some? then picked.value else "fa-table"
  }

  /** `getSelectedColor`: the picked colour, or none when nothing or the
      empty "no colour" swatch is picked. */
  function ColourChoice(picked: Option<string>): (r: Option<string>)
    ensures r.Some? ==> r == picked && r.value != ""
    ensures r.None? <==> !Truthy(picked)
  {
    if picked.Some? && picked.value != "" then picked else None
  }

  /** The icon `openEditTableModal` asks the picker to select: the table's
      icon, or `fa-table` when it has none. */
  function EditIcon(t: Table): string {
    if Truthy(t.icon) then t.icon.value else "fa-table"
  }

  /** The colour it asks the picker to select: the table's colour, or none. */
  function EditColour(t: Table): Option<string> {
    if Truthy(t.color) then t.color else None
  }

  /** Saving the edit modal without touching the pickers keeps the table's
      icon and colour only when they are palette entries: any other icon
      becomes `fa-table` and any other colour is dropped. */
  lemma UntouchedPickers(t: Table)
    ensures IconChoice(IconSwatch(EditIcon(t)))
            == if Truthy(t.icon) && t.icon.value in TableIcons then t.icon.value else "fa-table"
    ensures ColourChoice(ColourSwatch(EditColour(t)))
            == if Truthy(t.color) && t.color in TableColors then t.color else None
  {
    assert "fa-table" in TableIcons by {
      assert TableIcons[0] == "fa-table";
    }
    if Truthy(t.color) && t.color in TableColors {
      assert t.color != None;
    }
  }

  /** A parsed table coloured `#FF0000` with the icon `fa-rocket` comes out
      of an untouched edit with the default icon and no colour. */
  lemma UntouchedPickersDropCustomStyle(t: Table)
    requires t.icon == Some("fa-rocket") && t.color == Some("#FF0000")
    ensures IconChoice(IconSwatch(EditIcon(t))) == "fa-table"
    ensures ColourChoice(ColourSwatch(EditColour(t))) == None
  {
    UntouchedPickers(t);
    assert "fa-rocket" !in TableIcons;
    assert Some("#FF0000") !in TableColors;
  }

  /** The add modal selects the `fa-table` swatch and the "no colour"
      swatch, so an untouched add gives the default icon and no colour. */
  lemma AddPickers()
    ensures IconSwatch("fa-table") == Some("fa-table") && IconChoice(IconSwatch("fa-table")) == "fa-table"
    ensures ColourSwatch(None) == Some("") && ColourChoice(ColourSwatch(None)) == None
  {
    assert TableIcons[0] == "fa-table";
    assert TableColors[0] == None;
  }

  /** One row of the modal's column list, as typed. */
  datatype ColumnField = ColumnField(name: string, typeName: string, pk: bool)

  /** The column a kept row becomes: name, type and key, with `notNull`
      equal to the key flag and nothing else set. */
  function FieldColumn(f: ColumnField): Column {
    Column(Trim(f.name), f.typeName, f.pk, false, f.pk, false, None, false, None, None, None)
  }

  /** The type options of a row, the `types` list of `addColumnField`. */
  const ColumnTypes: seq<string> := [
    "int", "varchar(50)", "varchar(100)", "varchar(255)", "text", "bool",
    "datetime", "date", "decimal(10,2)", "float", "blob"]

  /** The type a row's select shows for a column type: the option equal to
      it, or else the first option, which a select with no selected option
      shows. */
  function TypeOption(typeName: string): (r: string)
    ensures r in ColumnTypes
    ensures r == typeName <==> typeName in ColumnTypes
  {
    if typeName in ColumnTypes then typeName else ColumnTypes[0]
  }

  /** The row `addColumnField(col)` adds for a column of the edited table:
      the name as its input reads it back, the option its type selects and
      its key flag. */
  function EditField(c: Column): ColumnField {
    ColumnField(AttrValueRead(c.name), TypeOption(c.typeName), c.pk)
  }

  /** The rows `openEditTableModal` adds, one per column, in order. */
  function EditFields(cols: seq<Column>): (r: seq<ColumnField>)
    ensures |r| == |cols|
    ensures forall i :: 0 <= i < |cols| ==> r[i] == EditField(cols[i])
  {
    if |cols| == 0 then [] else [EditField(cols[0])] + EditFields(cols[1..])
  }

  /** The rows with a non-blank trimmed name, in order, as columns. */
  function CollectedColumns(fields: seq<ColumnField>): (r: seq<Column>)
    ensures |r| <= |fields|
    ensures forall i :: 0 <= i < |r| ==> r[i].name != "" && r[i].notNull == r[i].pk && !r[i].fk && r[i].refTable.None?
  {
    if |fields| == 0 then []
    else
      var rest := CollectedColumns(fields[1..]);
      if Trim(fields[0].name) != "" then
        var c := FieldColumn(fields[0]);
        assert forall i :: 0 < i <= |rest| ==> ([c] + rest)[i] == rest[i - 1];
        [c] + rest
      else rest
  }

  /** Every row with a non-blank name yields a collected column. */
  lemma {:induction false} CollectedKeepsRow(fields: seq<ColumnField>, k: nat)
    requires k < |fields| && Trim(fields[k].name) != ""
    ensures FieldColumn(fields[k]) in CollectedColumns(fields)
  {
    var tail := fields[1..];
    if k > 0 {
      assert tail[k - 1] == fields[k];
      CollectedKeepsRow(tail, k - 1);
      assert CollectedColumns(fields) == CollectedColumns(tail) || CollectedColumns(fields) == [FieldColumn(fields[0])] + CollectedColumns(tail);
    }
  }

  /** Every collected column comes from a row with a non-blank name. */
  lemma {:induction false} CollectedSource(fields: seq<ColumnField>, c: Column) returns (k: nat)
    requires c in CollectedColumns(fields)
    ensures k < |fields| && Yields(fields[k], c)
  {
    var tail := fields[1..];
    var rest := CollectedColumns(tail);
    if Trim(fields[0].name) != "" && c == FieldColumn(fields[0]) {
      k := 0;
    } else {
      assert c in rest by {
        if Trim(fields[0].name) != "" {
          assert CollectedColumns(fields) == [FieldColumn(fields[0])] + rest;
        } else {
          assert CollectedColumns(fields) == rest;
        }
      }
      var k' := CollectedSource(tail, c);
      assert tail[k'] == fields[k' + 1];
      k := k' + 1;
    }
  }

  /** The row is kept and becomes `c`. */
  predicate Yields(f: ColumnField, c: Column) {
    Trim(f.name) != "" && c == FieldColumn(f)
  }

  /** No column is collected exactly when every row's name is blank. */
  lemma {:induction false} CollectedNoneWhenBlank(fields: seq<ColumnField>)
    ensures CollectedColumns(fields) == [] <==> forall k :: 0 <= k < |fields| ==> Trim(fields[k].name) == ""
  {
    if |fields| > 0 {
      var tail := fields[1..];
      CollectedNoneWhenBlank(tail);
      assert forall k :: 1 <= k < |fields| ==> fields[k] == tail[k - 1];
      if Trim(fields[0].name) != "" {
        assert CollectedColumns(fields) == [FieldColumn(fields[0])] + CollectedColumns(tail);
      } else {
        assert CollectedColumns(fields) == CollectedColumns(tail);
      }
    }
  }

  /** Saving the edit modal without touching its rows gives back one column
      per column when the part of every name before its first `"` is not
      blank: the name becomes that part, trimmed, so a name without `"` that
      is trimmed (as parsed names are) stays; the key flag stays, `notNull`
      becomes the key flag, the type stays only when it is one of the
      options and is `int` otherwise, and increment, uniqueness, default,
      note and the foreign-key fields are dropped. */
  lemma {:induction false} UntouchedRows(cols: seq<Column>)
    requires forall i :: 0 <= i < |cols| ==> Trim(AttrValueRead(cols[i].name)) != ""
    ensures var r := CollectedColumns(EditFields(cols));
            |r| == |cols|
            && (forall i :: 0 <= i < |cols| ==>
                  r[i] == PlainColumn(Trim(AttrValueRead(cols[i].name)),
                                      if cols[i].typeName in ColumnTypes then cols[i].typeName else "int", cols[i].pk))
            && (forall i :: 0 <= i < |cols| && '"' !in cols[i].name && Trim(cols[i].name) == cols[i].name ==>
                  r[i].name == cols[i].name)
  {
    if |cols| > 0 {
      var f := EditFields(cols);
      assert f[1..] == EditFields(cols[1..]);
      UntouchedRows(cols[1..]);
      assert Trim(f[0].name) == Trim(AttrValueRead(cols[0].name)) != "";
      assert CollectedColumns(f) == [FieldColumn(f[0])] + CollectedColumns(f[1..]);
      assert ColumnTypes[0] == "int";
    }
  }

  /** A column called `a"b` comes back from an untouched edit as `a`, and
      one called `"c` is lost. */
  lemma UntouchedQuotedNames()
    ensures CollectedColumns(EditFields([PlainColumn("a\"b", "int", false)])) == [PlainColumn("a", "int", false)]
    ensures CollectedColumns(EditFields([PlainColumn("\"c", "text", true)])) == []
  {
    var a, c := PlainColumn("a\"b", "int", false), PlainColumn("\"c", "text", true);
    var read := AttrValueRead(a.name);
    assert |read| == 1 by {
      assert a.name[1] == '"' && a.name[0] != '"';
    }
    assert read == "a";
    TrimNoSpace("a");
    UntouchedRows([a]);
    assert ColumnTypes[0] == "int";
    assert AttrValueRead(c.name) == "";
    var f := EditFields([c]);
    CollectedNoneWhenBlank(f);
  }

  /** The loop over the `.column-field` rows. */
  method CollectColumns(fields: seq<ColumnField>) returns (r: seq<Column>)
    ensures r == CollectedColumns(fields)
  {
    r := [];
    var i := |fields|;
    while i > 0
      invariant 0 <= i <= |fields|
      invariant r == CollectedColumns(fields[i..])
    {
      i := i - 1;
      assert fields[i..][1..] == fields[i + 1..];
      var name := Trim(fields[i].name);
      if name != "" {
        r := [FieldColumn(fields[i])] + r;
      }
    }
  }

  datatype SaveError = BlankName | NoColumns

  datatype ModalOutcome = Saved(state: State) | Rejected(reason: SaveError)

  /** The table an add appends: at the origin, with the chosen style. */
  function NewTable(name: string, cols: seq<Column>, icon: string, color: Option<string>): Table {
    Table(name, cols, [], "", Some(icon), color, 0.0, 0.0, None)
  }

  /** The tables and relationships a save leaves. Editing: the first table
      named as the edited one takes the new name, columns and style, keeping
      its position and everything else; references and relationships
      follow a rename; an edited table that has gone changes nothing.
      Adding: a new table is appended. */
  function ModalSchema(tables: seq<Table>, rels: seq<Relationship>, editing: Option<string>,
                       name: string, cols: seq<Column>, icon: string, color: Option<string>)
    : (seq<Table>, seq<Relationship>)
  {
    match editing
    case None => (tables + [NewTable(name, cols, icon, color)], rels)
    case Some(oldName) =>
      match FindTable(tables, oldName)
      case None => (tables, rels)
      case Some(i) =>
        var ts := tables[i := tables[i].(name := name, columns := cols, icon := Some(icon), color := color)];
        (if oldName != name then RenamedReferences(ts, oldName, name) else ts, RenameRelTables(rels, oldName, name))
  }

  /** `saveTableFromModal`: a blank name or a column list without a named row
      is refused and nothing changes; otherwise the table is edited or added,
      the modal and the popover close and the text is regenerated. */
  function SavedFromModal(s: State, nameInput: string, fields: seq<ColumnField>,
                          pickedIcon: Option<string>, pickedColor: Option<string>): (r: ModalOutcome)
    ensures Trim(nameInput) == "" <==> r == Rejected(BlankName)
    ensures r == Rejected(NoColumns) <==> Trim(nameInput) != "" && CollectedColumns(fields) == []
    ensures r.Saved? ==> !r.state.tableModalOpen && r.state.relationEditor.None?
                         && r.state.editingTable == s.editingTable
  {
    var name := Trim(nameInput);
    if name == "" then Rejected(BlankName)
    else
      var cols := CollectedColumns(fields);
      if |cols| == 0 then Rejected(NoColumns)
      else
        var m := ModalSchema(s.tables, s.relationships, s.editingTable, name, cols, IconChoice(pickedIcon), ColourChoice(pickedColor));
        Saved(SyncSql(CloseEditor(s.(tables := m.0, relationships := m.1, tableModalOpen := false))))
  }

  /** Adding appends exactly one table at the origin, leaves the others and
      the relationships alone and keeps them backed. */
  lemma ModalAddAppends(s: State, nameInput: string, fields: seq<ColumnField>,
                        pickedIcon: Option<string>, pickedColor: Option<string>)
    requires s.editingTable.None?
    requires SavedFromModal(s, nameInput, fields, pickedIcon, pickedColor).Saved?
    ensures var r := SavedFromModal(s, nameInput, fields, pickedIcon, pickedColor).state;
            r.tables == s.tables + [NewTable(Trim(nameInput), CollectedColumns(fields), IconChoice(pickedIcon), ColourChoice(pickedColor))]
            && r.relationships == s.relationships
            && (Consistent(s.tables, s.relationships) ==> Consistent(r.tables, r.relationships))
  {
    var r := SavedFromModal(s, nameInput, fields, pickedIcon, pickedColor).state;
    if Consistent(s.tables, s.relationships) {
      var t := NewTable(Trim(nameInput), CollectedColumns(fields), IconChoice(pickedIcon), ColourChoice(pickedColor));
      forall k | 0 <= k < |s.relationships|
        ensures RelationshipBacked(s.tables + [t], s.relationships[k])
      {
        assert RelationshipBacked(s.tables, s.relationships[k]);
        FindTableAppendFound(s.tables, t, s.relationships[k].fromTable);
      }
    }
  }

  lemma FindTableAppendFound(ts: seq<Table>, t: Table, name: string)
    requires FindTable(ts, name).Some?
    ensures FindTable(ts + [t], name) == FindTable(ts, name)
  {
    assert forall i :: 0 <= i < |ts| ==> (ts + [t])[i] == ts[i];
  }

  /** Editing keeps the number of tables and the edited table's position and
      other fields, gives it the new name, exactly the collected columns and
      the style, rewrites only references elsewhere, and renames the
      relationships. Its new columns carry no foreign key: the modal does
      not keep the old ones'. */
  lemma ModalEditReplaces(tables: seq<Table>, rels: seq<Relationship>, oldName: string,
                          name: string, fields: seq<ColumnField>, icon: string, color: Option<string>)
    requires FindTable(tables, oldName).Some?
    ensures var m := ModalSchema(tables, rels, Some(oldName), name, CollectedColumns(fields), icon, color);
            var i := FindTable(tables, oldName).value;
            |m.0| == |tables|
            && m.0[i] == tables[i].(name := name, columns := CollectedColumns(fields), icon := Some(icon), color := color)
            && (forall j :: 0 <= j < |m.0[i].columns| ==> !m.0[i].columns[j].fk)
            && (forall k :: 0 <= k < |tables| && k != i && oldName != name ==>
                  m.0[k] == tables[k].(columns := RenameRefsIn(tables[k].columns, oldName, name)))
            && (forall k :: 0 <= k < |tables| && k != i && oldName == name ==> m.0[k] == tables[k])
            && m.1 == RenameRelTables(rels, oldName, name)
  {
    var i := FindTable(tables, oldName).value;
    var cols := CollectedColumns(fields);
    var ts := tables[i := tables[i].(name := name, columns := cols, icon := Some(icon), color := color)];
    var m := ModalSchema(tables, rels, Some(oldName), name, cols, icon, color);
    if oldName != name {
      assert m.0 == RenamedReferences(ts, oldName, name);
      RenameRefsInCollected(cols, oldName, name);
    }
  }

  /** Collected columns reference nothing, so a rename leaves them alone. */
  lemma RenameRefsInCollected(cols: seq<Column>, oldName: string, name: string)
    requires forall j :: 0 <= j < |cols| ==> cols[j].refTable.None?
    ensures RenameRefsIn(cols, oldName, name) == cols
  {
    var r := RenameRefsIn(cols, oldName, name);
    assert forall j :: 0 <= j < |cols| ==> r[j] == RenamedRef(cols[j], oldName, name) == cols[j];
  }

  /** `saveTableFromModal`, on the page state; a refused save changes
      nothing. */
  method SaveTableFromModal(ctx: Context, nameInput: string, fields: seq<ColumnField>,
                            pickedIcon: Option<string>, pickedColor: Option<string>) returns (saved: bool)
    modifies ctx
    ensures var r := SavedFromModal(old(ctx.Snapshot()), nameInput, fields, pickedIcon, pickedColor);
            saved == r.Saved? && ctx.Snapshot() == if r.Saved? then r.state else old(ctx.Snapshot())
  {
    var name := Trim(nameInput);
    if name == "" {
      return false;
    }
    var cols := CollectColumns(fields);
    if |cols| == 0 {
      return false;
    }
    var ts, rels := SaveSchema(ctx.tables, ctx.relationships, ctx.editingTable, name, cols,
                               IconChoice(pickedIcon), ColourChoice(pickedColor));
    ctx.SetSchema(ts, rels);
    CloseTableModal(ctx);
    CloseRelationEditor(ctx);
    ctx.UpdateSqlFromState();
    saved := true;
  }

  /** The edit-or-add step of the save, with the reference rewrite loop. */
  method SaveSchema(tables: seq<Table>, rels: seq<Relationship>, editing: Option<string>,
                    name: string, cols: seq<Column>, icon: string, color: Option<string>)
    returns (ts: seq<Table>, rs: seq<Relationship>)
    ensures (ts, rs) == ModalSchema(tables, rels, editing, name, cols, icon, color)
  {
    ts, rs := tables, rels;
    if editing.None? {
      ts := tables + [NewTable(name, cols, icon, color)];
      return;
    }
    var oldName := editing.value;
    var found := FindTable(tables, oldName);
    if found.None? {
      return;
    }
    var i := found.value;
    ts := tables[i := tables[i].(name := name, columns := cols, icon := Some(icon), color := color)];
    if oldName != name {
      ts := RenameRefsInTables(ts, oldName, name);
    }
    rs := RenameRelTables(rels, oldName, name);
  }

  method CloseTableModal(ctx: Context)
    modifies ctx
    ensures ctx.Snapshot() == old(ctx.Snapshot()).(tableModalOpen := false)
  {
    ctx.tableModalOpen := false;
  }

  /** `openAddTableModal`: nothing is being edited and the modal shows,
      with the `fa-table` swatch and the "no colour" swatch selected. */
  method OpenAddTableModal(ctx: Context) returns (iconSwatch: Option<string>, colorSwatch: Option<string>)
    modifies ctx
    ensures ctx.Snapshot() == old(ctx.Snapshot()).(editingTable := None, tableModalOpen := true)
    ensures iconSwatch == Some("fa-table") && colorSwatch == Some("")
  {
    ctx.editingTable := None;
    ctx.tableModalOpen := true;
    iconSwatch := IconSwatch("fa-table");
    colorSwatch := ColourSwatch(None);
    AddPickers();
  }

  /** `openEditTableModal`: the table at `ti` is being edited and the modal
      shows, with the swatches selected that match its icon (or `fa-table`)
      and its colour (or none) exactly, and one row per column; see
      `UntouchedPickers` and `UntouchedRows` for what an untouched save then
      keeps. */
  method OpenEditTableModal(ctx: Context, ti: nat)
    returns (iconSwatch: Option<string>, colorSwatch: Option<string>, fields: seq<ColumnField>)
    requires ti < |ctx.tables|
    modifies ctx
    ensures ctx.Snapshot() == old(ctx.Snapshot()).(editingTable := Some(old(ctx.tables)[ti].name), tableModalOpen := true)
    ensures iconSwatch.Some? <==> EditIcon(old(ctx.tables)[ti]) in TableIcons
    ensures iconSwatch.Some? ==> iconSwatch.value == EditIcon(old(ctx.tables)[ti])
    ensures colorSwatch.Some? <==> EditColour(old(ctx.tables)[ti]) in TableColors
    ensures colorSwatch == ColourSwatch(EditColour(old(ctx.tables)[ti]))
    ensures fields == EditFields(old(ctx.tables)[ti].columns)
  {
    var t := ctx.tables[ti];
    ctx.editingTable := Some(t.name);
    ctx.tableModalOpen := true;
    iconSwatch := IconSwatch(EditIcon(t));
    colorSwatch := ColourSwatch(EditColour(t));
    fields := EditFields(t.columns);
  }
}
