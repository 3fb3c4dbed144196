/** The table cards (`tables.js`): deleting a table with everything that
    points at it, selecting tables, renaming a table from its card, dragging
    a card (or the selected group) and the layout steps of a full render. */
module Tables {
  import opened Wrappers
  import opened Text
  import opened Schema
  import opened Geometry
  import opened Session
  import opened Relationships
  import opened Layout
  import opened Viewport
  import opened Html

  // ---------------------------------------------------------------------
  // Deleting a table
  // ---------------------------------------------------------------------

  /** `tables.filter(t => t.name !== name)`. */
  function TablesWithout(ts: seq<Table>, name: string): (r: seq<Table>)
    ensures |r| <= |ts|
    ensures forall i :: 0 <= i < |r| ==> r[i].name != name
    ensures forall t :: t in r <==> t in ts && t.name != name
  {
    if |ts| == 0 then []
    else (if ts[0].name == name then [] else [ts[0]]) + TablesWithout(ts[1..], name)
  }

  /** `relationships.filter(r => r.fromTable !== name && r.toTable !== name)`. */
  function RelsAvoiding(rels: seq<Relationship>, name: string): (r: seq<Relationship>)
    ensures |r| <= |rels|
    ensures forall rel :: rel in r <==> rel in rels && rel.fromTable != name && rel.toTable != name
  {
    if |rels| == 0 then []
    else (if rels[0].fromTable == name || rels[0].toTable == name then [] else [rels[0]])
         + RelsAvoiding(rels[1..], name)
  }

  /** `selectedTables.filter(n => n !== name)`. */
  function NamesWithout(names: seq<string>, name: string): (r: seq<string>)
    ensures |r| <= |names|
    ensures forall n :: n in r <==> n in names && n != name
  {
    if |names| == 0 then []
    else (if names[0] == name then [] else [names[0]]) + NamesWithout(names[1..], name)
  }

  /** Filtering out another name leaves the table a name finds as it was. */
  lemma {:induction false} FindTableWithout(ts: seq<Table>, gone: string, name: string)
    requires name != gone
    ensures var w := TablesWithout(ts, gone);
            (FindTable(w, name).Some? <==> FindTable(ts, name).Some?)
            && (FindTable(w, name).Some? ==> w[FindTable(w, name).value] == ts[FindTable(ts, name).value])
  {
    if |ts| > 0 {
      var rest := TablesWithout(ts[1..], gone);
      FindTableWithout(ts[1..], gone, name);
      if ts[0].name == gone {
        assert TablesWithout(ts, gone) == rest;
      } else {
        var w := [ts[0]] + rest;
        assert TablesWithout(ts, gone) == w;
        assert w[0] == ts[0] && w[1..] == rest;
      }
    }
  }

  lemma FindTableCons(t: Table, ts: seq<Table>, name: string)
    requires t.name != name
    ensures FindTable([t] + ts, name) == if FindTable(ts, name).Some? then Some(FindTable(ts, name).value + 1) else None
  {
    assert ([t] + ts)[1..] == ts;
  }

  /** `deleteTable(name)`: a draft leaving from the table is cancelled, any
      popover closed; the table, every relationship from or to it and its
      selection go; columns elsewhere stop referencing it; the text is
      regenerated. */
  function DeletedTable(s: State, name: string): State {
    var s1 := if s.connectionDraft.Some? && s.connectionDraft.value.fromTable == name then CancelDraft(s) else s;
    SyncSql(CloseEditor(s1).(tables := RemovedReferences(TablesWithout(s.tables, name), name),
                             relationships := RelsAvoiding(s.relationships, name),
                             selectedTables := NamesWithout(s.selectedTables, name)))
  }

  /** After deleting, nothing is named, related to, selected as or
      referencing the deleted table; the other tables and relationships stay;
      only a draft leaving from it is cancelled; the popover is closed. */
  lemma DeleteTableRemovesAll(s: State, name: string)
    ensures var r := DeletedTable(s, name);
            (forall i :: 0 <= i < |r.tables| ==> r.tables[i].name != name)
            && (forall rel :: rel in r.relationships <==> rel in s.relationships && rel.fromTable != name && rel.toTable != name)
            && (forall n :: n in r.selectedTables <==> n in s.selectedTables && n != name)
            && (forall i, j :: 0 <= i < |r.tables| && 0 <= j < |r.tables[i].columns| ==>
                  r.tables[i].columns[j].refTable != Some(name))
            && (forall t :: t in s.tables && t.name != name ==> t.(columns := RemoveRefsIn(t.columns, name)) in r.tables)
            && r.relationEditor.None?
            && (s.connectionDraft.Some? && s.connectionDraft.value.fromTable == name ==> r.connectionDraft.None?)
            && (s.connectionDraft.None? || s.connectionDraft.value.fromTable != name ==> r.connectionDraft == s.connectionDraft)
  {
    DeletedTableFields(s, name);
    RemovedTablesFacts(s.tables, name);
  }

  /** The table half of a delete: no table keeps the name or references it,
      and every other table stays with its references to it removed. */
  lemma RemovedTablesFacts(ts: seq<Table>, name: string)
    ensures var nt := RemovedReferences(TablesWithout(ts, name), name);
            (forall i :: 0 <= i < |nt| ==> nt[i].name != name)
            && (forall i, j :: 0 <= i < |nt| && 0 <= j < |nt[i].columns| ==> nt[i].columns[j].refTable != Some(name))
            && (forall t :: t in ts && t.name != name ==> t.(columns := RemoveRefsIn(t.columns, name)) in nt)
  {
    RemovedTablesUnreferenced(ts, name);
    RemovedTablesKept(ts, name);
  }

  lemma RemovedTablesUnreferenced(ts: seq<Table>, name: string)
    ensures var nt := RemovedReferences(TablesWithout(ts, name), name);
            forall i, j :: 0 <= i < |nt| && 0 <= j < |nt[i].columns| ==> nt[i].columns[j].refTable != Some(name)
  {
    var w := TablesWithout(ts, name);
    forall i, j | 0 <= i < |w| && 0 <= j < |RemovedReferences(w, name)[i].columns|
      ensures RemovedReferences(w, name)[i].columns[j].refTable != Some(name)
    {
      RemoveReferencesExactly(w, name, i, j);
    }
  }

  lemma RemovedTablesKept(ts: seq<Table>, name: string)
    ensures var nt := RemovedReferences(TablesWithout(ts, name), name);
            forall t :: t in ts && t.name != name ==> t.(columns := RemoveRefsIn(t.columns, name)) in nt
  {
    var w := TablesWithout(ts, name);
    var nt := RemovedReferences(w, name);
    forall t | t in ts && t.name != name
      ensures t.(columns := RemoveRefsIn(t.columns, name)) in nt
    {
      var i :| 0 <= i < |w| && w[i] == t;
      assert nt[i] == t.(columns := RemoveRefsIn(t.columns, name));
    }
  }

  /** The fields `DeletedTable` changes, one by one. */
  lemma DeletedTableFields(s: State, name: string)
    ensures var r := DeletedTable(s, name);
            r.tables == RemovedReferences(TablesWithout(s.tables, name), name)
            && r.relationships == RelsAvoiding(s.relationships, name)
            && r.selectedTables == NamesWithout(s.selectedTables, name)
            && r.relationEditor.None?
            && r.connectionDraft == if s.connectionDraft.Some? && s.connectionDraft.value.fromTable == name then None else s.connectionDraft
  {
  }

  /** Deleting a table keeps every remaining relationship backed by its
      foreign-key column. */
  lemma DeleteTableKeepsConsistent(s: State, name: string)
    requires Consistent(s.tables, s.relationships)
    ensures var r := DeletedTable(s, name);
            Consistent(r.tables, r.relationships)
  {
    DeletedTableFields(s, name);
    DeleteKeepsConsistent(s.tables, s.relationships, name);
  }

  lemma DeleteKeepsConsistent(ts: seq<Table>, rels: seq<Relationship>, name: string)
    requires Consistent(ts, rels)
    ensures Consistent(RemovedReferences(TablesWithout(ts, name), name), RelsAvoiding(rels, name))
  {
    var nt := RemovedReferences(TablesWithout(ts, name), name);
    var kept := RelsAvoiding(rels, name);
    forall k | 0 <= k < |kept|
      ensures RelationshipBacked(nt, kept[k])
    {
      var rel := kept[k];
      assert rel in rels;
      var j :| 0 <= j < |rels| && rels[j] == rel;
      assert RelationshipBacked(ts, rels[j]);
      DeleteKeepsBacked(ts, name, rel);
    }
  }

  lemma DeleteKeepsBacked(ts: seq<Table>, name: string, rel: Relationship)
    requires rel.fromTable != name && rel.toTable != name
    requires RelationshipBacked(ts, rel)
    ensures RelationshipBacked(RemovedReferences(TablesWithout(ts, name), name), rel)
  {
    var w := TablesWithout(ts, name);
    var nt := RemovedReferences(w, name);
    FindTableWithout(ts, name, rel.fromTable);
    assert SameNames(w, nt);
    FindTableSameNames(w, nt, rel.fromTable);
    var i := FindTable(ts, rel.fromTable).value;
    var i' := FindTable(w, rel.fromTable).value;
    var cols := ts[i].columns;
    assert w[i'] == ts[i];
    assert nt[i'].columns == RemoveRefsIn(cols, name);
    assert SameColumnNames(cols, RemoveRefsIn(cols, name));
    FindColumnSameNames(cols, RemoveRefsIn(cols, name), rel.fromColumn);
  }

  /** `deleteTable`, on the page state. */
  method DeleteTable(ctx: Context, name: string)
    modifies ctx
    ensures ctx.Snapshot() == DeletedTable(old(ctx.Snapshot()), name)
  {
    ghost var s0 := ctx.Snapshot();
    ghost var s1 := if s0.connectionDraft.Some? && s0.connectionDraft.value.fromTable == name then CancelDraft(s0) else s0;
    if ctx.connectionDraft.Some? && ctx.connectionDraft.value.fromTable == name {
      CancelConnectionDraft(ctx);
    }
    assert ctx.Snapshot() == s1;
    if ctx.relationEditor.Some? {
      CloseRelationEditor(ctx);
    }
    assert ctx.Snapshot() == CloseEditor(s1);
    DropTable(ctx, name);
    ghost var s3 := ctx.Snapshot();
    ctx.UpdateSqlFromState();
    DeletedTableSteps(s0, name, s3);
  }

  /** The filtering steps of `deleteTable`: the table, its relationships,
      the references to it and its selection go; nothing else changes. */
  method DropTable(ctx: Context, name: string)
    modifies ctx
    ensures ctx.Snapshot() == old(ctx.Snapshot()).(tables := RemovedReferences(TablesWithout(old(ctx.tables), name), name),
                                                  relationships := RelsAvoiding(old(ctx.relationships), name),
                                                  selectedTables := NamesWithout(old(ctx.selectedTables), name))
  {
    ghost var s0 := ctx.Snapshot();
    var kept, rels := TablesWithout(ctx.tables, name), RelsAvoiding(ctx.relationships, name);
    var sel := NamesWithout(ctx.selectedTables, name);
    ctx.SetSchema(kept, rels);
    assert ctx.Snapshot() == s0.(tables := kept, relationships := rels);
    assert ctx.tables == kept;
    RemoveTableReferencesTo(ctx, name);
    ghost var s3 := s0.(tables := RemovedReferences(kept, name), relationships := rels);
    assert ctx.Snapshot() == s3;
    ctx.SetSelection(sel);
  }

  /** `DeletedTable` as the steps `DeleteTable` takes. */
  lemma DeletedTableSteps(s: State, name: string, s3: State)
    requires s3 == CloseEditor(if s.connectionDraft.Some? && s.connectionDraft.value.fromTable == name then CancelDraft(s) else s)
                     .(tables := RemovedReferences(TablesWithout(s.tables, name), name),
                       relationships := RelsAvoiding(s.relationships, name),
                       selectedTables := NamesWithout(s.selectedTables, name))
    ensures DeletedTable(s, name) == SyncSql(s3)
  {
  }

  // ---------------------------------------------------------------------
  // Selecting
  // ---------------------------------------------------------------------

  /** `indexOf`: the first position holding `name`. */
  function Position(names: seq<string>, name: string): (r: Option<nat>)
    ensures r.Some? ==> r.value < |names| && names[r.value] == name
    ensures r.Some? ==> forall i :: 0 <= i < r.value ==> names[i] != name
    ensures r.None? <==> name !in names
  {
    if |names| == 0 then None
    else if names[0] == name then Some(0)
    else match Position(names[1..], name)
      case Some(k) => Some(k + 1)
      case None => None
  }

  /** `selectTable(name, additive)`: with the modifier the name's membership
      toggles (the first occurrence is spliced out, or the name is pushed);
      without it the selection becomes just that name. */
  function ToggledSelection(sel: seq<string>, name: string, additive: bool): seq<string> {
    if !additive then [name]
    else match Position(sel, name)
      case Some(i) => RemoveAt(sel, i)
      case None => sel + [name]
  }

  /** Splicing out one entry of a list without repeats removes exactly that
      name and leaves no repeats. */
  lemma RemoveAtDistinct(sel: seq<string>, i: nat)
    requires i < |sel| && NoDuplicates(sel)
    ensures var r := RemoveAt(sel, i);
            NoDuplicates(r) && forall n :: n in r <==> n in sel && n != sel[i]
  {
    var r := RemoveAt(sel, i);
    forall n
      ensures n in r <==> n in sel && n != sel[i]
    {
      if n in sel {
        var k :| 0 <= k < |sel| && sel[k] == n;
        if k < i {
          assert r[k] == n;
        } else if k > i {
          assert r[k - 1] == n;
        }
      }
    }
  }

  /** With the modifier exactly the named table's membership changes, and a
      selection without repeats stays without repeats. */
  lemma SelectionToggles(sel: seq<string>, name: string)
    requires NoDuplicates(sel)
    ensures var r := ToggledSelection(sel, name, true);
            NoDuplicates(r)
            && (name in r <==> name !in sel)
            && (forall n :: n != name ==> (n in r <==> n in sel))
  {
    match Position(sel, name)
    case None =>
    case Some(i) => RemoveAtDistinct(sel, i);
  }

  method SelectTable(ctx: Context, name: string, additive: bool)
    modifies ctx
    ensures ctx.Snapshot() == old(ctx.Snapshot()).(selectedTables := ToggledSelection(old(ctx.selectedTables), name, additive))
  {
    if additive {
      var idx := Position(ctx.selectedTables, name);
      if idx.Some? {
        ctx.selectedTables := RemoveAt(ctx.selectedTables, idx.value);
      } else {
        ctx.selectedTables := ctx.selectedTables + [name];
      }
    } else {
      ctx.selectedTables := [name];
    }
  }

  // ---------------------------------------------------------------------
  // Renaming from the card
  // ---------------------------------------------------------------------

  function RenamedRel(rel: Relationship, oldName: string, newName: string): Relationship {
    rel.(fromTable := if rel.fromTable == oldName then newName else rel.fromTable,
         toTable := if rel.toTable == oldName then newName else rel.toTable)
  }

  /** The `relationships.map` of the blur handler. */
  function RenameRelTables(rels: seq<Relationship>, oldName: string, newName: string): (r: seq<Relationship>)
    ensures |r| == |rels|
    ensures forall k :: 0 <= k < |rels| ==> r[k] == RenamedRel(rels[k], oldName, newName)
  {
    if |rels| == 0 then [] else [RenamedRel(rels[0], oldName, newName)] + RenameRelTables(rels[1..], oldName, newName)
  }

  /** The name the blur handler keeps: the trimmed input, or the old name
      when that is empty. */
  function BlurName(oldName: string, input: string): string {
    if Trim(input) == "" then oldName else Trim(input)
  }

  /** The blur handler of the card at position `ti`: the table takes the new
      name; when it changed, references to the old name follow; the
      relationships' table names are rewritten; the text is regenerated. */
  function RenamedOnBlur(s: State, ti: nat, input: string): State
    requires ti < |s.tables|
  {
    var oldName := s.tables[ti].name;
    var newName := BlurName(oldName, input);
    var ts := s.tables[ti := s.tables[ti].(name := newName)];
    SyncSql(s.(tables := if newName != oldName then RenamedReferences(ts, oldName, newName) else ts,
               relationships := RenameRelTables(s.relationships, oldName, newName)))
  }

  /** An empty input keeps the old name and changes nothing but the text. */
  lemma BlurEmptyKeepsName(s: State, ti: nat, input: string)
    requires ti < |s.tables| && Trim(input) == ""
    ensures RenamedOnBlur(s, ti, input) == SyncSql(s)
  {
    var rels := RenameRelTables(s.relationships, s.tables[ti].name, s.tables[ti].name);
    assert rels == s.relationships;
    assert s.tables[ti := s.tables[ti].(name := s.tables[ti].name)] == s.tables;
  }

  /** After a real rename no relationship and no column mentions the old
      name, and everything that mentioned it mentions the new one. */
  lemma BlurRewritesReferences(s: State, ti: nat, input: string)
    requires ti < |s.tables|
    requires BlurName(s.tables[ti].name, input) != s.tables[ti].name
    ensures var r := RenamedOnBlur(s, ti, input);
            var oldName, newName := s.tables[ti].name, BlurName(s.tables[ti].name, input);
            |r.tables| == |s.tables| && r.tables[ti].name == newName
            && (forall k :: 0 <= k < |r.relationships| ==>
                  r.relationships[k].fromTable != oldName && r.relationships[k].toTable != oldName
                  && r.relationships[k] == RenamedRel(s.relationships[k], oldName, newName))
            && (forall i, j :: 0 <= i < |r.tables| && 0 <= j < |r.tables[i].columns| ==>
                  r.tables[i].columns[j].refTable != Some(oldName)
                  && (s.tables[i].columns[j].refTable == Some(oldName) ==>
                        r.tables[i].columns[j].refTable == Some(newName) && r.tables[i].columns[j].fk))
  {
    var oldName, newName := s.tables[ti].name, BlurName(s.tables[ti].name, input);
    var ts := s.tables[ti := s.tables[ti].(name := newName)];
    forall i, j | 0 <= i < |s.tables| && 0 <= j < |ts[i].columns|
      ensures RenamedReferences(ts, oldName, newName)[i].columns[j].refTable != Some(oldName)
    {
      RenameReferencesExactly(ts, oldName, newName, i, j);
    }
  }

  /** No table but the `ti`-th is called `name`, and none before it. */
  predicate FirstNamed(ts: seq<Table>, ti: nat)
    requires ti < |ts|
  {
    FindTable(ts, ts[ti].name) == Some(ti)
  }

  /** Renaming the card of the first table of its name to a name no table
      has keeps every relationship backed. */
  lemma BlurKeepsConsistent(s: State, ti: nat, input: string)
    requires ti < |s.tables| && FirstNamed(s.tables, ti)
    requires var n := BlurName(s.tables[ti].name, input);
             n == s.tables[ti].name || !HasTable(s.tables, n)
    requires Consistent(s.tables, s.relationships)
    ensures var r := RenamedOnBlur(s, ti, input);
            Consistent(r.tables, r.relationships)
  {
    var oldName, newName := s.tables[ti].name, BlurName(s.tables[ti].name, input);
    var r := RenamedOnBlur(s, ti, input);
    if newName == oldName {
      BlurSameName(s, ti, input);
    } else {
      forall k | 0 <= k < |r.relationships|
        ensures RelationshipBacked(r.tables, r.relationships[k])
      {
        assert RelationshipBacked(s.tables, s.relationships[k]);
        RenameKeepsBacked(s.tables, ti, newName, s.relationships[k]);
      }
    }
  }

  lemma BlurSameName(s: State, ti: nat, input: string)
    requires ti < |s.tables| && BlurName(s.tables[ti].name, input) == s.tables[ti].name
    ensures var r := RenamedOnBlur(s, ti, input);
            r.tables == s.tables && r.relationships == s.relationships
  {
    var n := s.tables[ti].name;
    assert RenameRelTables(s.relationships, n, n) == s.relationships;
    assert s.tables[ti := s.tables[ti].(name := n)] == s.tables;
  }

  lemma RenameKeepsBacked(ts: seq<Table>, ti: nat, newName: string, rel: Relationship)
    requires ti < |ts| && FirstNamed(ts, ti)
    requires newName != ts[ti].name && !HasTable(ts, newName)
    requires RelationshipBacked(ts, rel)
    ensures var oldName := ts[ti].name;
            RelationshipBacked(RenamedReferences(ts[ti := ts[ti].(name := newName)], oldName, newName),
                               RenamedRel(rel, oldName, newName))
  {
    var oldName := ts[ti].name;
    var nt := RenamedReferences(ts[ti := ts[ti].(name := newName)], oldName, newName);
    var rel' := RenamedRel(rel, oldName, newName);
    var i := FindTable(ts, rel.fromTable).value;
    RenamedTableFound(ts, ti, newName, rel.fromTable);
    RenamedColumnBacked(ts[i].columns, oldName, newName, rel);
    assert nt[i].columns == RenameRefsIn(ts[i].columns, oldName, newName);
  }

  /** After the rename and the reference update, a relationship's source
      table is found at the same place, under its renamed name. */
  lemma RenamedTableFound(ts: seq<Table>, ti: nat, newName: string, name: string)
    requires ti < |ts| && FirstNamed(ts, ti)
    requires newName != ts[ti].name && !HasTable(ts, newName)
    requires FindTable(ts, name).Some?
    ensures var oldName := ts[ti].name;
            var nt := RenamedReferences(ts[ti := ts[ti].(name := newName)], oldName, newName);
            FindTable(nt, if name == oldName then newName else name) == FindTable(ts, name)
  {
    var oldName := ts[ti].name;
    var ts1 := ts[ti := ts[ti].(name := newName)];
    var nt := RenamedReferences(ts1, oldName, newName);
    var i := FindTable(ts, name).value;
    assert SameNames(ts1, nt);
    FindTableSameNames(ts1, nt, if name == oldName then newName else name);
    if name == oldName {
      assert i == ti;
      assert forall j :: 0 <= j < ti ==> ts1[j].name == ts[j].name;
      FindTableFirstAt(ts1, ti, newName);
    } else {
      FindTableOtherName(ts, ti, newName, name);
    }
  }

  /** The column that backs a relationship still backs it once both name
      the renamed table. */
  lemma RenamedColumnBacked(cols: seq<Column>, oldName: string, newName: string, rel: Relationship)
    requires FindColumn(cols, rel.fromColumn).Some?
    requires var c := cols[FindColumn(cols, rel.fromColumn).value];
             c.fk && c.refTable == Some(rel.toTable) && c.refColumn == Some(rel.toColumn)
    ensures var cols' := RenameRefsIn(cols, oldName, newName);
            var rel' := RenamedRel(rel, oldName, newName);
            FindColumn(cols', rel.fromColumn) == FindColumn(cols, rel.fromColumn)
            && var c' := cols'[FindColumn(cols, rel.fromColumn).value];
               c'.fk && c'.refTable == Some(rel'.toTable) && c'.refColumn == Some(rel'.toColumn)
  {
    var cols' := RenameRefsIn(cols, oldName, newName);
    assert SameColumnNames(cols, cols');
    FindColumnSameNames(cols, cols', rel.fromColumn);
  }

  /** The first table carrying a name is the one found under it. */
  lemma FindTableFirstAt(ts: seq<Table>, k: nat, name: string)
    requires k < |ts| && ts[k].name == name
    requires forall j :: 0 <= j < k ==> ts[j].name != name
    ensures FindTable(ts, name) == Some(k)
  {
    var r := FindTable(ts, name);
    assert r.Some?;
    assert !(r.value < k);
  }

  /** Renaming one entry leaves a third name's lookup alone. */
  lemma FindTableOtherName(ts: seq<Table>, ti: nat, newName: string, name: string)
    requires ti < |ts| && ts[ti].name != name && newName != name
    ensures FindTable(ts[ti := ts[ti].(name := newName)], name) == FindTable(ts, name)
  {
    assert SameNamesBut(ts, ts[ti := ts[ti].(name := newName)], name);
    FindTableSameNamesBut(ts, ts[ti := ts[ti].(name := newName)], name);
  }

  /** Two lists that agree on which entries are called `name`. */
  predicate SameNamesBut(a: seq<Table>, b: seq<Table>, name: string) {
    |a| == |b| && forall i :: 0 <= i < |a| ==> (a[i].name == name <==> b[i].name == name)
  }

  lemma {:induction false} FindTableSameNamesBut(a: seq<Table>, b: seq<Table>, name: string)
    requires SameNamesBut(a, b, name)
    ensures FindTable(a, name) == FindTable(b, name)
  {
    if |a| > 0 {
      assert SameNamesBut(a[1..], b[1..], name) by {
        forall i | 0 <= i < |a| - 1 ensures (a[1..][i].name == name <==> b[1..][i].name == name) {
          assert a[1..][i] == a[i + 1] && b[1..][i] == b[i + 1];
        }
      }
      FindTableSameNamesBut(a[1..], b[1..], name);
    }
  }

  /** The card's name input is written as `value="${table.name}"` without
      escaping (js/tables.js:145), so until it is edited it holds
      `AttrValueRead` of the name. A plain click on it starts no drag
      (js/tables.js:252), so a blur can follow without any edit. Such a blur
      keeps a name without `"` and without surrounding spaces, and changes
      nothing else. A name with `"` is kept only when the part before its
      first `"` is blank; otherwise the table is renamed to that part,
      trimmed, which holds no `"`. */
  lemma UntouchedBlur(s: State, ti: nat)
    requires ti < |s.tables|
    ensures var name := s.tables[ti].name;
            var r := RenamedOnBlur(s, ti, AttrValueRead(name));
            |r.tables| == |s.tables|
            && ('"' !in name && Trim(name) == name ==> r.tables == s.tables && r.relationships == s.relationships)
            && ('"' in name ==> (r.tables[ti].name == name <==> Trim(AttrValueRead(name)) == "")
                                && (r.tables[ti].name != name ==> '"' !in r.tables[ti].name))
  {
    var name := s.tables[ti].name;
    var read := AttrValueRead(name);
    TrimKeepsAbsent(read, '"');
    if '"' !in name && Trim(name) == name {
      BlurSameName(s, ti, read);
    } else if Trim(read) != "" {
      BlurRewritesReferences(s, ti, read);
    }
  }

  /** The instances: a table called `a"b` is renamed `a` by an untouched
      blur, and every relationship that left from it now leaves from `a`;
      a table called `"c` keeps its name and only the text is regenerated. */
  lemma UntouchedBlurQuoted(s: State, ti: nat)
    requires ti < |s.tables|
    ensures s.tables[ti].name == "a\"b" ==>
              var r := RenamedOnBlur(s, ti, AttrValueRead("a\"b"));
              r.tables[ti].name == "a"
              && forall k :: 0 <= k < |s.relationships| && s.relationships[k].fromTable == "a\"b" ==>
                   r.relationships[k].fromTable == "a"
    ensures s.tables[ti].name == "\"c" ==> RenamedOnBlur(s, ti, AttrValueRead("\"c")) == SyncSql(s)
  {
    var ab, c := "a\"b", "\"c";
    assert AttrValueRead(ab) == "a" by {
      assert ab[1] == '"' && ab[0] != '"';
      assert |AttrValueRead(ab)| == 1;
    }
    TrimNoSpace("a");
    assert AttrValueRead(c) == "" by {
      assert c[0] == '"';
    }
    if s.tables[ti].name == ab {
      BlurRewritesReferences(s, ti, "a");
    }
    if s.tables[ti].name == c {
      BlurEmptyKeepsName(s, ti, "");
    }
  }

  /** The blur handler, on the page state. */
  method RenameOnBlur(ctx: Context, ti: nat, input: string)
    requires ti < |ctx.tables|
    modifies ctx
    ensures ctx.Snapshot() == RenamedOnBlur(old(ctx.Snapshot()), ti, input)
  {
    var oldName := ctx.tables[ti].name;
    var typed := Trim(input);
    var newName := if typed == "" then oldName else typed;
    var ts := ctx.tables[ti := ctx.tables[ti].(name := newName)];
    if newName != oldName {
      ts := RenameRefsInTables(ts, oldName, newName);
    }
    ctx.SetSchema(ts, RenameRelTables(ctx.relationships, oldName, newName));
    ctx.UpdateSqlFromState();
  }

  // ---------------------------------------------------------------------
  // Dragging a card
  // ---------------------------------------------------------------------

  function Keys(origins: seq<(string, Point)>): (r: seq<string>)
    ensures |r| == |origins|
    ensures forall k :: 0 <= k < |r| ==> r[k] == origins[k].0
  {
    if |origins| == 0 then [] else [origins[0].0] + Keys(origins[1..])
  }

  /** The `groupOrigins` object as `Object.entries` lists it: for each
      selected name that names a table, once, the position of the first
      table of that name; the plain object keeps no entry for `__proto__`. */
  function GroupOrigins(ts: seq<Table>, sel: seq<string>): seq<(string, Point)> {
    if |sel| == 0 then []
    else
      var front := GroupOrigins(ts, sel[..|sel| - 1]);
      var n := sel[|sel| - 1];
      if n == ProtoKey then front
      else
        match FindTable(ts, n)
        case None => front
        case Some(i) => if n in Keys(front) then front else front + [(n, Point(ts[i].x, ts[i].y))]
  }

  /** Each recorded name is selected, names a table and appears once, with
      that table's position; every selected name of a table other than
      `__proto__` is recorded. */
  lemma GroupOriginsExact(ts: seq<Table>, sel: seq<string>)
    ensures var r := GroupOrigins(ts, sel);
            NoDuplicates(Keys(r))
            && (forall k :: 0 <= k < |r| ==>
                  FindTable(ts, r[k].0).Some? && r[k].1 == Point(ts[FindTable(ts, r[k].0).value].x, ts[FindTable(ts, r[k].0).value].y))
            && (forall n :: n in Keys(r) <==> n in sel && n != ProtoKey && FindTable(ts, n).Some?)
  {
    GroupOriginsNames(ts, sel);
    GroupOriginsDistinct(ts, sel);
    GroupOriginsPositions(ts, sel);
  }

  lemma KeysSnoc(o: seq<(string, Point)>, e: (string, Point))
    ensures Keys(o + [e]) == Keys(o) + [e.0]
  {
    var a, b := Keys(o + [e]), Keys(o) + [e.0];
    assert forall k :: 0 <= k < |a| ==> a[k] == b[k];
  }

  /** One turn of the recording loop. */
  lemma GroupOriginsSnoc(ts: seq<Table>, sel: seq<string>)
    requires |sel| > 0
    ensures var front, n := GroupOrigins(ts, sel[..|sel| - 1]), sel[|sel| - 1];
            var r := GroupOrigins(ts, sel);
            if n != ProtoKey && FindTable(ts, n).Some? && n !in Keys(front)
            then r == front + [(n, Point(ts[FindTable(ts, n).value].x, ts[FindTable(ts, n).value].y))]
                 && Keys(r) == Keys(front) + [n]
            else r == front
  {
    var front, n := GroupOrigins(ts, sel[..|sel| - 1]), sel[|sel| - 1];
    if n != ProtoKey && FindTable(ts, n).Some? && n !in Keys(front) {
      KeysSnoc(front, (n, Point(ts[FindTable(ts, n).value].x, ts[FindTable(ts, n).value].y)));
    }
  }

  lemma {:induction false} GroupOriginsNames(ts: seq<Table>, sel: seq<string>)
    ensures forall n :: n in Keys(GroupOrigins(ts, sel)) <==> n in sel && n != ProtoKey && FindTable(ts, n).Some?
  {
    if |sel| > 0 {
      var init := sel[..|sel| - 1];
      GroupOriginsNames(ts, init);
      GroupOriginsSnoc(ts, sel);
      assert forall m :: m in sel <==> m in init || m == sel[|sel| - 1];
    }
  }

  lemma {:induction false} GroupOriginsDistinct(ts: seq<Table>, sel: seq<string>)
    ensures NoDuplicates(Keys(GroupOrigins(ts, sel)))
  {
    if |sel| > 0 {
      GroupOriginsDistinct(ts, sel[..|sel| - 1]);
      GroupOriginsSnoc(ts, sel);
    }
  }

  lemma {:induction false} GroupOriginsPositions(ts: seq<Table>, sel: seq<string>)
    ensures var r := GroupOrigins(ts, sel);
            forall k :: 0 <= k < |r| ==>
              FindTable(ts, r[k].0).Some? && r[k].1 == Point(ts[FindTable(ts, r[k].0).value].x, ts[FindTable(ts, r[k].0).value].y)
  {
    if |sel| > 0 {
      GroupOriginsPositions(ts, sel[..|sel| - 1]);
      GroupOriginsSnoc(ts, sel);
    }
  }

  /** The loop that fills `groupOrigins`. */
  method CollectGroupOrigins(ts: seq<Table>, sel: seq<string>) returns (r: seq<(string, Point)>)
    ensures r == GroupOrigins(ts, sel)
  {
    r := [];
    var i := 0;
    while i < |sel|
      invariant 0 <= i <= |sel|
      invariant r == GroupOrigins(ts, sel[..i])
    {
      assert sel[..i + 1][..i] == sel[..i];
      var t := FindTable(ts, sel[i]);
      if sel[i] != ProtoKey && t.Some? && sel[i] !in Keys(r) {
        r := r + [(sel[i], Point(ts[t.value].x, ts[t.value].y))];
      }
      i := i + 1;
    }
    assert sel[..i] == sel;
  }

  /** `pointerdown` on the header of the card of the table at position
      `ti`: the main button, off the name input and the action buttons,
      starts that card's drag from the table's position; when the table is
      part of a selection of several, the drag moves the group. The page's
      dragging flag names the table; the drags of other cards stay as they
      were. */
  function DragStarted(s: State, ti: nat, button: int, onControl: bool, pointerId: int, client: Point): (r: State)
    requires ti < |s.tables|
    ensures button != 0 || onControl ==> r == s
    ensures button == 0 && !onControl ==>
              r == s.(tableDrags := r.tableDrags, isDraggingTable := Some(s.tables[ti].name))
              && r.tableDrags.Keys == s.tableDrags.Keys + {ti}
              && (forall k :: k in s.tableDrags && k != ti ==> r.tableDrags[k] == s.tableDrags[k])
              && var d := r.tableDrags[ti];
                 d.pointerId == pointerId && d.startX == client.x && d.startY == client.y
                 && d.originX == s.tables[ti].x && d.originY == s.tables[ti].y
                 && (d.isGroupDrag <==> s.tables[ti].name in s.selectedTables && |s.selectedTables| > 1)
                 && d.groupOrigins == (if d.isGroupDrag then GroupOrigins(s.tables, s.selectedTables) else [])
  {
    if button != 0 || onControl then s
    else
      var t := s.tables[ti];
      var group := t.name in s.selectedTables && |s.selectedTables| > 1;
      var origins := if group then GroupOrigins(s.tables, s.selectedTables) else [];
      s.(tableDrags := s.tableDrags[ti := TableDrag(pointerId, client.x, client.y, t.x, t.y, group, origins)],
         isDraggingTable := Some(t.name))
  }

  method OnHeaderPointerDown(ctx: Context, ti: nat, button: int, onControl: bool, pointerId: int, client: Point)
    requires ti < |ctx.tables|
    modifies ctx
    ensures ctx.Snapshot() == DragStarted(old(ctx.Snapshot()), ti, button, onControl, pointerId, client)
  {
    if button != 0 || onControl {
      return;
    }
    var t := ctx.tables[ti];
    var group := t.name in ctx.selectedTables && |ctx.selectedTables| > 1;
    var origins := [];
    if group {
      origins := CollectGroupOrigins(ctx.tables, ctx.selectedTables);
    }
    ctx.tableDrags := ctx.tableDrags[ti := TableDrag(pointerId, client.x, client.y, t.x, t.y, group, origins)];
    ctx.isDraggingTable := Some(t.name);
  }

  /** The group move: each recorded name's first table goes to its origin
      plus the offset. */
  function MoveGroup(ts: seq<Table>, origins: seq<(string, Point)>, dx: real, dy: real): (r: seq<Table>)
    ensures SameButPositions(ts, r)
  {
    if |origins| == 0 then ts
    else
      var front := MoveGroup(ts, origins[..|origins| - 1], dx, dy);
      var e := origins[|origins| - 1];
      match FindTable(front, e.0)
      case None => front
      case Some(i) =>
        var r := front[i := MoveTo(front[i], e.1.x + dx, e.1.y + dy)];
        SameButPositionsTrans(ts, front, r);
        r
  }

  /** The last recorded entry moves the first table of its name, if any,
      and leaves every other table as the earlier entries left it. */
  lemma MoveGroupLast(ts: seq<Table>, origins: seq<(string, Point)>, dx: real, dy: real, k: nat)
    requires |origins| > 0 && k < |ts|
    ensures var e := origins[|origins| - 1];
            var front := MoveGroup(ts, origins[..|origins| - 1], dx, dy);
            (FindTable(ts, e.0) == Some(k) ==> MoveGroup(ts, origins, dx, dy)[k] == MoveTo(ts[k], e.1.x + dx, e.1.y + dy))
            && (FindTable(ts, e.0) != Some(k) ==> MoveGroup(ts, origins, dx, dy)[k] == front[k])
  {
    var e := origins[|origins| - 1];
    var front := MoveGroup(ts, origins[..|origins| - 1], dx, dy);
    assert SameNames(ts, front);
    FindTableSameNames(ts, front, e.0);
  }

  /** A table that no recorded name finds first stays where it was. */
  lemma {:induction false} MoveGroupKeepsOthers(ts: seq<Table>, origins: seq<(string, Point)>, dx: real, dy: real, k: nat)
    requires k < |ts|
    requires forall j :: 0 <= j < |origins| ==> FindTable(ts, origins[j].0) != Some(k)
    ensures MoveGroup(ts, origins, dx, dy)[k] == ts[k]
  {
    if |origins| > 0 {
      var init := origins[..|origins| - 1];
      assert forall j :: 0 <= j < |init| ==> init[j] == origins[j];
      MoveGroupKeepsOthers(ts, init, dx, dy, k);
      MoveGroupLast(ts, origins, dx, dy, k);
    }
  }

  /** With distinct recorded names, the first table of a recorded name ends
      at that name's origin plus the offset. */
  lemma {:induction false} MoveGroupMovesListed(ts: seq<Table>, origins: seq<(string, Point)>, dx: real, dy: real, j: nat, k: nat)
    requires NoDuplicates(Keys(origins)) && k < |ts| && j < |origins|
    requires FindTable(ts, origins[j].0) == Some(k)
    ensures MoveGroup(ts, origins, dx, dy)[k] == MoveTo(ts[k], origins[j].1.x + dx, origins[j].1.y + dy)
  {
    var last := |origins| - 1;
    MoveGroupLast(ts, origins, dx, dy, k);
    if j < last {
      var init := origins[..last];
      KeysPrefixDistinct(origins, last);
      assert init[j] == origins[j];
      MoveGroupMovesListed(ts, init, dx, dy, j, k);
      assert origins[j].0 != origins[last].0 by {
        assert Keys(origins)[j] != Keys(origins)[last];
      }
    }
  }

  lemma KeysPrefixDistinct(origins: seq<(string, Point)>, n: nat)
    requires NoDuplicates(Keys(origins)) && n <= |origins|
    ensures NoDuplicates(Keys(origins[..n]))
  {
    KeysPrefix(origins, n);
    NoDuplicatesPrefix(Keys(origins), n);
  }

  lemma NoDuplicatesPrefix(xs: seq<string>, n: nat)
    requires NoDuplicates(xs) && n <= |xs|
    ensures NoDuplicates(xs[..n])
  {
  }

  lemma KeysPrefix(origins: seq<(string, Point)>, n: nat)
    requires n <= |origins|
    ensures Keys(origins[..n]) == Keys(origins)[..n]
  {
    var pre := origins[..n];
    assert forall i :: 0 <= i < n ==> pre[i] == origins[i];
  }

  /** A group drag as a whole: with the origins recorded at the press, the
      first table of each selected name other than `__proto__` moves by the
      offset, and every other table, a selected `__proto__` among them,
      stays where it was. */
  lemma GroupDragExact(ts: seq<Table>, sel: seq<string>, dx: real, dy: real, k: nat)
    requires k < |ts|
    ensures var r := MoveGroup(ts, GroupOrigins(ts, sel), dx, dy);
            var recorded := ts[k].name in sel && ts[k].name != ProtoKey && FindTable(ts, ts[k].name) == Some(k);
            (recorded ==> r[k] == MoveTo(ts[k], ts[k].x + dx, ts[k].y + dy))
            && (!recorded ==> r[k] == ts[k])
  {
    if ts[k].name in sel && ts[k].name != ProtoKey && FindTable(ts, ts[k].name) == Some(k) {
      GroupDragMovesRecorded(ts, sel, dx, dy, k);
    } else {
      GroupDragKeepsUnrecorded(ts, sel, dx, dy, k);
    }
  }

  lemma GroupDragMovesRecorded(ts: seq<Table>, sel: seq<string>, dx: real, dy: real, k: nat)
    requires k < |ts| && ts[k].name in sel && ts[k].name != ProtoKey && FindTable(ts, ts[k].name) == Some(k)
    ensures MoveGroup(ts, GroupOrigins(ts, sel), dx, dy)[k] == MoveTo(ts[k], ts[k].x + dx, ts[k].y + dy)
  {
    var o := GroupOrigins(ts, sel);
    GroupOriginsNames(ts, sel);
    GroupOriginsDistinct(ts, sel);
    var j :| 0 <= j < |Keys(o)| && Keys(o)[j] == ts[k].name;
    GroupOriginAt(ts, sel, j);
    MoveGroupMovesListed(ts, o, dx, dy, j, k);
  }

  /** The `j`-th recorded origin is the position of its name's first table. */
  lemma GroupOriginAt(ts: seq<Table>, sel: seq<string>, j: nat)
    requires j < |GroupOrigins(ts, sel)|
    ensures var e := GroupOrigins(ts, sel)[j];
            FindTable(ts, e.0).Some? && e.1 == Point(ts[FindTable(ts, e.0).value].x, ts[FindTable(ts, e.0).value].y)
  {
    GroupOriginsPositions(ts, sel);
  }

  lemma GroupDragKeepsUnrecorded(ts: seq<Table>, sel: seq<string>, dx: real, dy: real, k: nat)
    requires k < |ts| && !(ts[k].name in sel && ts[k].name != ProtoKey && FindTable(ts, ts[k].name) == Some(k))
    ensures MoveGroup(ts, GroupOrigins(ts, sel), dx, dy)[k] == ts[k]
  {
    var o := GroupOrigins(ts, sel);
    GroupOriginsNames(ts, sel);
    forall j | 0 <= j < |o|
      ensures FindTable(ts, o[j].0) != Some(k)
    {
      assert Keys(o)[j] == o[j].0;
    }
    MoveGroupKeepsOthers(ts, o, dx, dy, k);
  }

  /** The loop `for (const [name, origin] of Object.entries(groupOrigins))`. */
  method MoveGroupInPlace(ts: seq<Table>, origins: seq<(string, Point)>, dx: real, dy: real) returns (r: seq<Table>)
    ensures r == MoveGroup(ts, origins, dx, dy)
  {
    r := ts;
    var i := 0;
    while i < |origins|
      invariant 0 <= i <= |origins|
      invariant r == MoveGroup(ts, origins[..i], dx, dy)
    {
      assert origins[..i + 1][..i] == origins[..i];
      var e := origins[i];
      var t := FindTable(r, e.0);
      if t.Some? {
        r := r[t.value := MoveTo(r[t.value], e.1.x + dx, e.1.y + dy)];
      }
      i := i + 1;
    }
    assert origins[..i] == origins;
  }

  /** `pointermove` on the header of the card of the table at position
      `ti`: when that card's drag belongs to the pointer and the page's
      dragging flag still names the table, the table, or the group, moves by
      the pointer's motion since the press scaled to world units; otherwise
      nothing happens. */
  function DragMoved(s: State, ti: nat, pointerId: int, client: Point): (r: State)
    requires s.zoom > 0.0
    ensures r.(tables := s.tables) == s
    ensures SameButPositions(s.tables, r.tables)
  {
    if ti !in s.tableDrags || ti >= |s.tables| then s
    else
      var d := s.tableDrags[ti];
      if d.pointerId != pointerId || s.isDraggingTable != Some(s.tables[ti].name) then s
      else
        var dx := (client.x - d.startX) / s.zoom;
        var dy := (client.y - d.startY) / s.zoom;
        if d.isGroupDrag then s.(tables := MoveGroup(s.tables, d.groupOrigins, dx, dy))
        else s.(tables := s.tables[ti := MoveTo(s.tables[ti], d.originX + dx, d.originY + dy)])
  }

  /** A single drag puts the table at its origin plus the scaled motion and
      leaves every other table alone. */
  lemma SingleDragMoves(s: State, ti: nat, pointerId: int, client: Point)
    requires s.zoom > 0.0 && ti in s.tableDrags && ti < |s.tables|
    requires var d := s.tableDrags[ti];
             d.pointerId == pointerId && !d.isGroupDrag
             && s.isDraggingTable == Some(s.tables[ti].name)
    ensures var d := s.tableDrags[ti];
            var r := DragMoved(s, ti, pointerId, client);
            r.tables[ti].x == d.originX + (client.x - d.startX) / s.zoom
            && r.tables[ti].y == d.originY + (client.y - d.startY) / s.zoom
            && forall k :: 0 <= k < |s.tables| && k != ti ==> r.tables[k] == s.tables[k]
  {
  }

  method OnHeaderPointerMove(ctx: Context, ti: nat, pointerId: int, client: Point)
    requires ctx.zoom > 0.0
    modifies ctx
    ensures ctx.Snapshot() == DragMoved(old(ctx.Snapshot()), ti, pointerId, client)
  {
    if ti !in ctx.tableDrags || ti >= |ctx.tables| {
      return;
    }
    var d := ctx.tableDrags[ti];
    if d.pointerId != pointerId || ctx.isDraggingTable != Some(ctx.tables[ti].name) {
      return;
    }
    var dx := (client.x - d.startX) / ctx.zoom;
    var dy := (client.y - d.startY) / ctx.zoom;
    if d.isGroupDrag {
      var ts := MoveGroupInPlace(ctx.tables, d.groupOrigins, dx, dy);
      ctx.SetTables(ts);
    } else {
      var t := ctx.tables[ti];
      ctx.SetTables(ctx.tables[ti := MoveTo(t, d.originX + dx, d.originY + dy)]);
    }
  }

  /** `stopTableDrag(pointerId)` of the card of the table at position `ti`:
      when that card's drag belongs to the pointer, the drag ends, the
      page's dragging flag is cleared, whatever table it names, and the
      overlaps are resolved once; otherwise nothing changes. */
  function DragStopped(s: State, ti: nat, pointerId: int): (r: State) {
    if ti !in s.tableDrags || s.tableDrags[ti].pointerId != pointerId then s
    else s.(tableDrags := s.tableDrags - {ti}, isDraggingTable := None, tables := ResolveFrom(s.tables, 0).0)
  }

  /** Ending a drag only moves tables, keeping the sums of their
      coordinates, and leaves no overlap when the resolution settled. */
  lemma DragStopOnlyMoves(s: State, ti: nat, pointerId: int)
    ensures var r := DragStopped(s, ti, pointerId);
            SameButPositions(s.tables, r.tables)
            && SumX(r.tables) == SumX(s.tables) && SumY(r.tables) == SumY(s.tables)
            && (ti !in s.tableDrags || s.tableDrags[ti].pointerId != pointerId ==> r == s)
            && (ti in s.tableDrags && s.tableDrags[ti].pointerId == pointerId ==>
                  r.tableDrags.Keys == s.tableDrags.Keys - {ti}
                  && (forall k :: k in r.tableDrags ==> r.tableDrags[k] == s.tableDrags[k])
                  && r.isDraggingTable.None?
                  && (ResolveFrom(s.tables, 0).1 < MaxPasses ==> NoOverlaps(r.tables)))
  {
    ResolveFromProperties(s.tables, 0);
    if ti !in s.tableDrags || s.tableDrags[ti].pointerId != pointerId {
      SameButPositionsRefl(s.tables);
    }
  }

  /** Two cards dragged by two pointers at once: the release of one card
      clears the page's single dragging flag, so from then on the other
      card's drag no longer moves anything, whichever pointer moves. */
  lemma ReleaseStopsOtherDrags(s: State, tj: nat, pj: int, ti: nat, pi: int, client: Point)
    requires s.zoom > 0.0
    requires tj in s.tableDrags && s.tableDrags[tj].pointerId == pj
    ensures var r := DragStopped(s, tj, pj);
            r.isDraggingTable.None? && DragMoved(r, ti, pi, client) == r
  {
  }

  /** A second press on another card takes the dragging flag over, so the
      first card's drag no longer moves its table, while its record stays. */
  lemma SecondPressTakesOver(s: State, ti: nat, tj: nat, pj: int, client: Point, pi: int, moved: Point)
    requires s.zoom > 0.0 && ti < |s.tables| && tj < |s.tables| && ti != tj
    requires s.tables[ti].name != s.tables[tj].name
    ensures var r := DragStarted(s, tj, 0, false, pj, client);
            (ti in s.tableDrags ==> ti in r.tableDrags && r.tableDrags[ti] == s.tableDrags[ti])
            && DragMoved(r, ti, pi, moved) == r
  {
  }

  lemma SameButPositionsRefl(ts: seq<Table>)
    ensures SameButPositions(ts, ts)
  {
    assert forall k :: 0 <= k < |ts| ==> ts[k] == MoveTo(ts[k], ts[k].x, ts[k].y);
  }

  method StopTableDrag(ctx: Context, ti: nat, pointerId: int)
    modifies ctx
    ensures ctx.Snapshot() == DragStopped(old(ctx.Snapshot()), ti, pointerId)
  {
    if ti !in ctx.tableDrags || ctx.tableDrags[ti].pointerId != pointerId {
      return;
    }
    var ts, passes := ResolveTableOverlaps(ctx.tables);
    ctx.EndTableDrag(ti, ts);
  }

  // ---------------------------------------------------------------------
  // Rendering
  // ---------------------------------------------------------------------

  /** `tables.every(t => t.x === 0 && t.y === 0)`. */
  predicate NeedsLayout(ts: seq<Table>) {
    forall k :: 0 <= k < |ts| ==> ts[k].x == 0.0 && ts[k].y == 0.0
  }

  /** Each table takes its card's measured width. */
  function WithWidths(ts: seq<Table>, widths: seq<real>): (r: seq<Table>)
    requires |widths| == |ts|
    ensures |r| == |ts|
    ensures forall k :: 0 <= k < |ts| ==> r[k] == ts[k].(renderedWidth := Some(widths[k]))
  {
    if |ts| == 0 then [] else [ts[0].(renderedWidth := Some(widths[0]))] + WithWidths(ts[1..], widths[1..])
  }

  /** The state steps of `renderTables`: the old cards are removed, and
      every card drag goes with them; nothing more for an empty canvas;
      otherwise a canvas whose tables all sit at the origin is laid out, the
      measured widths are recorded, overlaps are resolved, and after a fresh
      layout the view is fitted. `widths` holds the card widths the page
      measures, one per table. */
  function Rendered(s: State, widths: seq<real>, width: real, height: real): State
    requires |widths| == |s.tables|
  {
    var s0 := s.(tableDrags := map[]);
    if |s.tables| == 0 then s0
    else
      var firstLayout := NeedsLayout(s.tables);
      var laid := if firstLayout then AutoLayout(s.tables, s.relationships) else s.tables;
      var s1 := s0.(tables := ResolveFrom(WithWidths(laid, widths), 0).0);
      if firstLayout then Fitted(s1, width, height) else s1
  }

  /** Rendering only moves tables and records their widths; the view moves
      only after a fresh layout, and then the zoom is at most 1. */
  lemma RenderOnlyPlaces(s: State, widths: seq<real>, width: real, height: real)
    requires |widths| == |s.tables| && |s.tables| > 0
    ensures var r := Rendered(s, widths, width, height);
            var laid := if NeedsLayout(s.tables) then AutoLayout(s.tables, s.relationships) else s.tables;
            r.(tables := s.tables, zoom := s.zoom, panX := s.panX, panY := s.panY, tableDrags := s.tableDrags) == s
            && r.tableDrags == map[]
            && SameButPositions(WithWidths(laid, widths), r.tables)
            && (!NeedsLayout(s.tables) ==> r.zoom == s.zoom && r.panX == s.panX && r.panY == s.panY)
            && (NeedsLayout(s.tables) ==> MinZoom <= r.zoom <= 1.0)
  {
    var laid := if NeedsLayout(s.tables) then AutoLayout(s.tables, s.relationships) else s.tables;
    ResolveFromProperties(WithWidths(laid, widths), 0);
  }

  /** The zoom stays in [0.25, 2] for good: the page starts at 1, and the
      only steps that set it (zooming, fitting and rendering) land in that
      range again. Every other operation leaves the zoom as it is, so the
      divisions by the zoom in dragging, marquee selection and anchored
      zooming never meet a zero. */
  lemma ZoomStaysInRange(s: State, zoom: real, anchor: Option<Point>, origin: Point,
                         widths: seq<real>, width: real, height: real)
    requires MinZoom <= s.zoom <= MaxZoom
    requires |widths| == |s.tables|
    ensures MinZoom <= 1.0 <= MaxZoom && MinZoom > 0.0
    ensures MinZoom <= Zoomed(s, zoom, anchor, origin).zoom <= MaxZoom
    ensures MinZoom <= Fitted(s, width, height).zoom <= MaxZoom
    ensures MinZoom <= Rendered(s, widths, width, height).zoom <= MaxZoom
  {
    if |s.tables| > 0 {
      RenderOnlyPlaces(s, widths, width, height);
    }
  }

  /** Building the cards again while a card is dragged (a parse run by
      Ctrl+S does): no card's drag survives, so no pointer moves or releases
      a table any more, while the page's dragging flag stays set, and a
      press on the canvas then neither pans nor starts a marquee. */
  lemma RebuildStrandsDrag(s: State, widths: seq<real>, width: real, height: real,
                           ti: nat, pointerId: int, client: Point,
                           button: int, buttons: nat, inside: bool, interactive: bool)
    requires MinZoom <= s.zoom <= MaxZoom && |widths| == |s.tables|
    requires s.isDraggingTable.Some?
    ensures var r := Rendered(s, widths, width, height);
            r.tableDrags == map[] && r.isDraggingTable == s.isDraggingTable
            && r.zoom > 0.0 && DragMoved(r, ti, pointerId, client) == r
            && DragStopped(r, ti, pointerId) == r
            && MouseDown(r, button, buttons, inside, interactive, client) == r
  {
    ZoomStaysInRange(s, s.zoom, None, client, widths, width, height);
    if |s.tables| > 0 {
      RenderOnlyPlaces(s, widths, width, height);
    }
  }

  method RenderTables(ctx: Context, widths: seq<real>, width: real, height: real)
    requires |widths| == |ctx.tables|
    modifies ctx
    ensures ctx.Snapshot() == Rendered(old(ctx.Snapshot()), widths, width, height)
  {
    ghost var s0 := ctx.Snapshot();
    ctx.RebuildCards();
    assert Rendered(s0, widths, width, height) == Rendered(ctx.Snapshot(), widths, width, height);
    PlaceCards(ctx, widths, width, height);
  }

  /** The steps of `renderTables` after the old cards are removed. */
  method PlaceCards(ctx: Context, widths: seq<real>, width: real, height: real)
    requires |widths| == |ctx.tables| && ctx.tableDrags == map[]
    modifies ctx
    ensures ctx.Snapshot() == Rendered(old(ctx.Snapshot()), widths, width, height)
  {
    if |ctx.tables| == 0 {
      return;
    }
    var firstLayout := NeedsLayout(ctx.tables);
    var laid := ctx.tables;
    if firstLayout {
      laid := AutoLayoutTables(ctx.tables, ctx.relationships);
    }
    var ts, passes := ResolveTableOverlaps(WithWidths(laid, widths));
    ctx.SetTables(ts);
    if firstLayout {
      FitToScreen(ctx, width, height);
    }
  }
}
