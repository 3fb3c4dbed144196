/** The page-level handlers of `app.js`: running the parser with the icon
    and colour carry-over, the clear button, the keyboard shortcuts, the
    theme switch and the style-attribute toggle. */
module App {
  import opened Wrappers
  import opened Schema
  import opened Session
  import opened Parser
  import opened Relationships
  import opened Tables
  import opened Generator

  // ---------------------------------------------------------------------
  // Running the parser
  // ---------------------------------------------------------------------

  /** The two card styles a parse carries over. */
  datatype Style = Icon | Colour

  function StyleOf(t: Table, k: Style): Option<string> {
    match k
    case Icon => t.icon
    case Colour => t.color
  }

  /** The last position holding a table of that name whose style is set. */
  function LastStyled(ts: seq<Table>, name: string, k: Style): (r: Option<nat>)
    ensures r.Some? ==> r.value < |ts| && ts[r.value].name == name && Truthy(StyleOf(ts[r.value], k))
    ensures r.Some? ==> forall j :: r.value < j < |ts| && ts[j].name == name ==> !Truthy(StyleOf(ts[j], k))
    ensures r.None? ==> forall j :: 0 <= j < |ts| && ts[j].name == name ==> !Truthy(StyleOf(ts[j], k))
  {
    if |ts| == 0 then None
    else if ts[|ts| - 1].name == name && Truthy(StyleOf(ts[|ts| - 1], k)) then Some(|ts| - 1)
    else
      var init := ts[..|ts| - 1];
      assert forall j :: 0 <= j < |init| ==> init[j] == ts[j];
      LastStyled(init, name, k)
  }

  /** The `prevIcons` / `prevColors` map the loop over the current tables
      builds: every table whose style is set records it under its name, and
      a later table of the same name overwrites an earlier one. */
  function Carried(ts: seq<Table>, k: Style): map<string, string> {
    if |ts| == 0 then map[]
    else
      var m := Carried(ts[..|ts| - 1], k);
      var t := ts[|ts| - 1];
      if Truthy(StyleOf(t, k)) then m[t.name := StyleOf(t, k).value] else m
  }

  /** A name is carried exactly when some table of that name has its style
      set, and it carries the style of the last such table. */
  lemma {:induction false} CarriedIsLast(ts: seq<Table>, k: Style, name: string)
    ensures name in Carried(ts, k) <==> LastStyled(ts, name, k).Some?
    ensures name in Carried(ts, k) ==> Some(Carried(ts, k)[name]) == StyleOf(ts[LastStyled(ts, name, k).value], k)
  {
    if |ts| > 0 {
      var init := ts[..|ts| - 1];
      CarriedIsLast(init, k, name);
      assert forall j :: 0 <= j < |init| ==> init[j] == ts[j];
    }
  }

  /** The loop `for (const t of state.tables)` that fills the maps. */
  method CollectCarried(ts: seq<Table>, k: Style) returns (m: map<string, string>)
    ensures m == Carried(ts, k)
  {
    m := map[];
    var i := 0;
    while i < |ts|
      invariant 0 <= i <= |ts|
      invariant m == Carried(ts[..i], k)
    {
      assert ts[..i + 1][..i] == ts[..i];
      var style := StyleOf(ts[i], k);
      if style.Some? && style.value != "" {
        m := m[ts[i].name := style.value];
      }
      i := i + 1;
    }
    assert ts[..i] == ts;
  }

  /** The carried map after the pending entries of a loaded schema are laid
      over it. */
  function Kept(ts: seq<Table>, k: Style, pending: Option<map<string, string>>): map<string, string> {
    if pending.Some? then Carried(ts, k) + pending.value else Carried(ts, k)
  }

  /** The last loop of `runParser`: a kept icon replaces the parsed one; a
      kept colour is used only when the parsed table has none. */
  function Restyled(t: Table, icons: map<string, string>, colors: map<string, string>): Table {
    t.(icon := if t.name in icons then Some(icons[t.name]) else t.icon,
       color := if t.name in colors && !Truthy(t.color) then Some(colors[t.name]) else t.color)
  }

  function RestyledAll(ts: seq<Table>, icons: map<string, string>, colors: map<string, string>): (r: seq<Table>)
    ensures |r| == |ts|
    ensures forall i :: 0 <= i < |ts| ==> r[i] == Restyled(ts[i], icons, colors)
  {
    if |ts| == 0 then [] else [Restyled(ts[0], icons, colors)] + RestyledAll(ts[1..], icons, colors)
  }

  method RestyleTables(ts: seq<Table>, icons: map<string, string>, colors: map<string, string>) returns (r: seq<Table>)
    ensures r == RestyledAll(ts, icons, colors)
  {
    r := [];
    var i := 0;
    while i < |ts|
      invariant 0 <= i <= |ts| && |r| == i
      invariant forall k :: 0 <= k < i ==> r[k] == Restyled(ts[k], icons, colors)
    {
      r := r + [Restyled(ts[i], icons, colors)];
      i := i + 1;
    }
  }

  /** `runParser` on the editor text: when it holds no table nothing
      changes; otherwise the parsed tables, restyled, and the parsed
      relationships replace the old ones, the pending styles are consumed,
      and the draft and the popover are closed. */
  function RanParser(s: State): State {
    var p := ParseDsl(s.sqlText);
    if |p.tables| == 0 then s
    else
      var icons := Kept(s.tables, Icon, s.pendingIcons);
      var colors := Kept(s.tables, Colour, s.pendingColors);
      CloseEditor(CancelDraft(s.(tables := RestyledAll(p.tables, icons, colors), relationships := p.relationships,
                                 pendingIcons := None, pendingColors := None)))
  }

  /** Text without a table leaves the page as it was; otherwise the model is
      the parse, table for table, with only icons and colours changed, and
      the draft, the popover and the pending styles are gone. */
  lemma RunParserReplaces(s: State)
    ensures var p := ParseDsl(s.sqlText);
            var r := RanParser(s);
            (|p.tables| == 0 ==> r == s)
            && (|p.tables| > 0 ==>
                  r.relationships == p.relationships && |r.tables| == |p.tables|
                  && (forall i :: 0 <= i < |p.tables| ==>
                        r.tables[i] == p.tables[i].(icon := r.tables[i].icon, color := r.tables[i].color))
                  && r.connectionDraft.None? && r.relationEditor.None?
                  && r.pendingIcons.None? && r.pendingColors.None?
                  && r.(tables := s.tables, relationships := s.relationships, connectionDraft := s.connectionDraft,
                        relationEditor := s.relationEditor, pendingIcons := s.pendingIcons, pendingColors := s.pendingColors) == s)
  {
  }

  /** The icon a parsed table ends with: the pending one for its name, else
      the icon of the last current table of that name that has one, else
      its own. */
  lemma RunParserIcon(s: State, i: nat)
    requires i < |ParseDsl(s.sqlText).tables|
    ensures var t := ParseDsl(s.sqlText).tables[i];
            RanParser(s).tables[i].icon ==
              if s.pendingIcons.Some? && t.name in s.pendingIcons.value then Some(s.pendingIcons.value[t.name])
              else if LastStyled(s.tables, t.name, Icon).Some? then s.tables[LastStyled(s.tables, t.name, Icon).value].icon
              else t.icon
  {
    var t := ParseDsl(s.sqlText).tables[i];
    CarriedIsLast(s.tables, Icon, t.name);
    var p := ParseDsl(s.sqlText);
    var icons := Kept(s.tables, Icon, s.pendingIcons);
    var colors := Kept(s.tables, Colour, s.pendingColors);
    assert RanParser(s).tables[i] == Restyled(p.tables[i], icons, colors);
  }

  /** A parsed table keeps a colour of its own; one without takes the
      pending colour for its name, else the colour of the last current table
      of that name that has one, else stays without. */
  lemma RunParserColour(s: State, i: nat)
    requires i < |ParseDsl(s.sqlText).tables|
    ensures var t := ParseDsl(s.sqlText).tables[i];
            RanParser(s).tables[i].color ==
              if Truthy(t.color) then t.color
              else if s.pendingColors.Some? && t.name in s.pendingColors.value then Some(s.pendingColors.value[t.name])
              else if LastStyled(s.tables, t.name, Colour).Some? then s.tables[LastStyled(s.tables, t.name, Colour).value].color
              else t.color
  {
    var t := ParseDsl(s.sqlText).tables[i];
    CarriedIsLast(s.tables, Colour, t.name);
    var p := ParseDsl(s.sqlText);
    var icons := Kept(s.tables, Icon, s.pendingIcons);
    var colors := Kept(s.tables, Colour, s.pendingColors);
    assert RanParser(s).tables[i] == Restyled(p.tables[i], icons, colors);
  }

  /** The styling half of `runParser`: the icon and colour maps are built
      and laid over the parsed tables. */
  method KeepStyles(current: seq<Table>, pendingIcons: Option<map<string, string>>,
                    pendingColors: Option<map<string, string>>, parsed: seq<Table>) returns (r: seq<Table>)
    ensures r == RestyledAll(parsed, Kept(current, Icon, pendingIcons), Kept(current, Colour, pendingColors))
  {
    var icons := CollectCarried(current, Icon);
    if pendingIcons.Some? {
      icons := icons + pendingIcons.value;
    }
    var colors := CollectCarried(current, Colour);
    if pendingColors.Some? {
      colors := colors + pendingColors.value;
    }
    r := RestyleTables(parsed, icons, colors);
  }

  /** The state half of a successful `runParser`. */
  method LoadParsed(ctx: Context, ts: seq<Table>, rels: seq<Relationship>)
    modifies ctx
    ensures ctx.Snapshot() == CloseEditor(CancelDraft(old(ctx.Snapshot()).(tables := ts, relationships := rels,
                                                                         pendingIcons := None, pendingColors := None)))
  {
    ctx.SetSchema(ts, rels);
    ctx.ConsumePending();
    CancelConnectionDraft(ctx);
    CloseRelationEditor(ctx);
  }

  /** `runParser`, on the page state. */
  method RunParser(ctx: Context)
    modifies ctx
    ensures ctx.Snapshot() == RanParser(old(ctx.Snapshot()))
  {
    var p := Parse(ctx.sqlText);
    if |p.tables| == 0 {
      return;
    }
    var ts := KeepStyles(ctx.tables, ctx.pendingIcons, ctx.pendingColors, p.tables);
    LoadParsed(ctx, ts, p.relationships);
  }

  // ---------------------------------------------------------------------
  // The clear button
  // ---------------------------------------------------------------------

  /** The clear button: no tables, relationships or selection, no draft or
      popover, and an empty editor. */
  function Cleared(s: State): State {
    CloseEditor(CancelDraft(s.(tables := [], relationships := [], selectedTables := [], sqlText := "")))
  }

  /** Running the parser right after clearing changes nothing, since the
      empty text holds no table. */
  lemma ClearThenRunKeepsEmpty(s: State)
    ensures RanParser(Cleared(s)) == Cleared(s)
    ensures Consistent(Cleared(s).tables, Cleared(s).relationships)
  {
    assert StripComments("") == "" by {
      StripCommentsNoSlash("");
    }
  }

  method Clear(ctx: Context)
    modifies ctx
    ensures ctx.Snapshot() == Cleared(old(ctx.Snapshot()))
  {
    ctx.SetSchema([], []);
    ctx.SetSelection([]);
    CancelConnectionDraft(ctx);
    CloseRelationEditor(ctx);
    ctx.SetSqlText("");
  }

  // ---------------------------------------------------------------------
  // Keyboard
  // ---------------------------------------------------------------------

  /** The Delete key's loop: each name of the snapshot is deleted in turn. */
  function DeletedAll(s: State, names: seq<string>): State
    decreases |names|
  {
    if |names| == 0 then s else DeletedTable(DeletedAll(s, names[..|names| - 1]), names[|names| - 1])
  }

  function Members(xs: seq<string>): set<string> {
    set n | n in xs
  }

  function TableNames(ts: seq<Table>): set<string> {
    set i | 0 <= i < |ts| :: ts[i].name
  }

  /** Filtering a table out and dropping references to it removes exactly
      that name. */
  lemma DeletedTableNames(ts: seq<Table>, name: string)
    ensures TableNames(RemovedReferences(TablesWithout(ts, name), name)) == TableNames(ts) - {name}
  {
    DeletedNamesKept(ts, name);
    DeletedNamesFrom(ts, name);
  }

  lemma DeletedNamesKept(ts: seq<Table>, name: string)
    ensures forall n :: n in TableNames(ts) && n != name ==> n in TableNames(RemovedReferences(TablesWithout(ts, name), name))
  {
    var w := TablesWithout(ts, name);
    var r := RemovedReferences(w, name);
    forall n | n in TableNames(ts) && n != name
      ensures n in TableNames(r)
    {
      var i :| 0 <= i < |ts| && ts[i].name == n;
      assert ts[i] in w;
      var j :| 0 <= j < |w| && w[j] == ts[i];
      assert r[j].name == w[j].name == n;
    }
  }

  lemma DeletedNamesFrom(ts: seq<Table>, name: string)
    ensures forall n :: n in TableNames(RemovedReferences(TablesWithout(ts, name), name)) ==> n in TableNames(ts) && n != name
  {
    var w := TablesWithout(ts, name);
    var r := RemovedReferences(w, name);
    forall n | n in TableNames(r)
      ensures n in TableNames(ts) && n != name
    {
      var j :| 0 <= j < |r| && r[j].name == n;
      assert r[j].name == w[j].name;
      assert w[j] in ts;
      var i :| 0 <= i < |ts| && ts[i] == w[j];
      assert ts[i].name == n;
    }
  }

  /** The parts of the state a deletion rewrites. */
  lemma DeletedTableParts(s: State, name: string)
    ensures DeletedTable(s, name).tables == RemovedReferences(TablesWithout(s.tables, name), name)
    ensures DeletedTable(s, name).selectedTables == NamesWithout(s.selectedTables, name)
  {
  }

  lemma MembersWithout(xs: seq<string>, name: string)
    ensures Members(NamesWithout(xs, name)) == Members(xs) - {name}
  {
  }

  lemma EmptyMembers(xs: seq<string>)
    ensures Members(xs) == {} ==> xs == []
  {
    if |xs| > 0 {
      assert xs[0] in Members(xs);
    }
  }

  /** Deleting a list of names removes exactly those names from the tables
      and the selection and keeps the relationships backed. */
  lemma {:induction false} DeletedAllRemoves(s: State, names: seq<string>)
    ensures var r := DeletedAll(s, names);
            TableNames(r.tables) == TableNames(s.tables) - Members(names)
            && Members(r.selectedTables) == Members(s.selectedTables) - Members(names)
            && (Consistent(s.tables, s.relationships) ==> Consistent(r.tables, r.relationships))
  {
    if |names| > 0 {
      var init := names[..|names| - 1];
      var last := names[|names| - 1];
      DeletedAllRemoves(s, init);
      var s1 := DeletedAll(s, init);
      DeletedTableParts(s1, last);
      DeletedTableNames(s1.tables, last);
      MembersWithout(s1.selectedTables, last);
      if Consistent(s.tables, s.relationships) {
        DeleteTableKeepsConsistent(s1, last);
      }
      MembersSnoc(names);
    }
  }

  lemma MembersSnoc(xs: seq<string>)
    requires |xs| > 0
    ensures Members(xs) == Members(xs[..|xs| - 1]) + {xs[|xs| - 1]}
  {
    var init := xs[..|xs| - 1];
    forall n | n in xs
      ensures n in init || n == xs[|xs| - 1]
    {
      var k :| 0 <= k < |xs| && xs[k] == n;
      if k < |xs| - 1 {
        assert init[k] == n;
      }
    }
  }

  /** The Delete key with a selection: every selected table is gone, the
      selection is empty and the relationships stay backed. */
  lemma DeleteKeyClearsSelection(s: State)
    ensures var r := DeletedAll(s, s.selectedTables);
            TableNames(r.tables) == TableNames(s.tables) - Members(s.selectedTables)
            && r.selectedTables == []
            && (Consistent(s.tables, s.relationships) ==> Consistent(r.tables, r.relationships))
  {
    var r := DeletedAll(s, s.selectedTables);
    DeletedAllRemoves(s, s.selectedTables);
    EmptyMembers(r.selectedTables);
  }

  method DeleteSelected(ctx: Context)
    modifies ctx
    ensures ctx.Snapshot() == DeletedAll(old(ctx.Snapshot()), old(ctx.selectedTables))
  {
    ghost var s0 := ctx.Snapshot();
    var toDelete := ctx.selectedTables;
    var i := 0;
    while i < |toDelete|
      invariant 0 <= i <= |toDelete|
      invariant ctx.Snapshot() == DeletedAll(s0, toDelete[..i])
    {
      DeletedAllSnoc(s0, toDelete, i);
      DeleteTable(ctx, toDelete[i]);
      i := i + 1;
    }
    assert toDelete[..i] == toDelete;
  }

  lemma DeletedAllSnoc(s: State, names: seq<string>, i: nat)
    requires i < |names|
    ensures DeletedAll(s, names[..i + 1]) == DeletedTable(DeletedAll(s, names[..i]), names[i])
  {
    assert names[..i + 1][..i] == names[..i];
  }

  /** Escape closes the first open thing of: the image modal, the draft, the
      popover; otherwise it hides the table modal. */
  function Escaped(s: State): State {
    if s.pngModalOpen then s.(pngModalOpen := false)
    else if s.connectionDraft.Some? then CancelDraft(s)
    else if s.relationEditor.Some? then CloseEditor(s)
    else s.(tableModalOpen := false)
  }

  /** Each press closes the first open thing in the order, opens nothing
      and leaves the model alone. */
  lemma EscapeCloses(s: State)
    ensures var r := Escaped(s);
            !r.pngModalOpen
            && (!s.pngModalOpen ==> r.connectionDraft.None?)
            && (!s.pngModalOpen && s.connectionDraft.None? ==> r.relationEditor.None?)
            && (!s.pngModalOpen && s.connectionDraft.None? && s.relationEditor.None? ==> !r.tableModalOpen)
            && (s.connectionDraft.None? ==> r.connectionDraft.None?)
            && (s.relationEditor.None? ==> r.relationEditor.None?)
            && (!s.tableModalOpen ==> !r.tableModalOpen)
            && (s.pngModalOpen ==> r.connectionDraft == s.connectionDraft && r.relationEditor == s.relationEditor)
            && r.tables == s.tables && r.relationships == s.relationships && r.selectedTables == s.selectedTables
  {
  }

  /** Four presses close everything. */
  lemma EscapeFourTimes(s: State)
    ensures var r := Escaped(Escaped(Escaped(Escaped(s))));
            !r.pngModalOpen && r.connectionDraft.None? && r.relationEditor.None? && !r.tableModalOpen
  {
    var s1 := Escaped(s);
    var s2 := Escaped(s1);
    var s3 := Escaped(s2);
    EscapeCloses(s);
    EscapeCloses(s1);
    EscapeCloses(s2);
    EscapeCloses(s3);
  }

  method OnEscape(ctx: Context)
    modifies ctx
    ensures ctx.Snapshot() == Escaped(old(ctx.Snapshot()))
  {
    if ctx.pngModalOpen {
      ctx.pngModalOpen := false;
      return;
    }
    if ctx.connectionDraft.Some? {
      CancelConnectionDraft(ctx);
      return;
    }
    if ctx.relationEditor.Some? {
      CloseRelationEditor(ctx);
      return;
    }
    ctx.tableModalOpen := false;
  }

  /** The document `keydown` handler: Delete with a selection deletes it;
      Ctrl or Cmd with `s` runs the parser; Escape closes one thing. */
  function KeyDown(s: State, key: string, modifier: bool): State {
    var s1 := if key == "Delete" && |s.selectedTables| > 0 then DeletedAll(s, s.selectedTables) else s;
    var s2 := if modifier && key == "s" then RanParser(s1) else s1;
    if key == "Escape" then Escaped(s2) else s2
  }

  method OnKeyDown(ctx: Context, key: string, modifier: bool)
    modifies ctx
    ensures ctx.Snapshot() == KeyDown(old(ctx.Snapshot()), key, modifier)
  {
    if key == "Delete" && |ctx.selectedTables| > 0 {
      DeleteSelected(ctx);
    }
    if modifier && key == "s" {
      RunParser(ctx);
    }
    if key == "Escape" {
      OnEscape(ctx);
    }
  }

  // ---------------------------------------------------------------------
  // Theme and style toggle
  // ---------------------------------------------------------------------

  /** `toggleTheme`: the current theme, `light` when unset, is swapped. */
  function NextTheme(theme: Option<string>): (r: string)
    ensures r == "dark" <==> !(Truthy(theme) && theme.value == "dark")
    ensures r == "light" || r == "dark"
  {
    var current := if Truthy(theme) then theme.value else "light";
    if current == "dark" then "light" else "dark"
  }

  /** Toggling twice returns to either of the two themes. */
  lemma ThemeToggleInvolution(theme: string)
    requires theme == "light" || theme == "dark"
    ensures NextTheme(Some(NextTheme(Some(theme)))) == theme
  {
  }

  method ToggleTheme(ctx: Context)
    modifies ctx
    ensures ctx.Snapshot() == old(ctx.Snapshot()).(theme := Some(NextTheme(old(ctx.theme))))
  {
    ctx.theme := Some(NextTheme(ctx.theme));
  }

  /** The style button: the flag flips and the text is regenerated. */
  function StyleToggled(s: State): State {
    SyncSql(s.(showStyleAttrs := !s.showStyleAttrs))
  }

  /** Two presses restore the flag and leave the text generated with it. */
  lemma StyleToggleTwice(s: State)
    ensures StyleToggled(StyleToggled(s)) == SyncSql(s)
    ensures StyleToggled(s).sqlText == DslText(s.tables, !s.showStyleAttrs)
  {
  }

  method ToggleStyle(ctx: Context)
    modifies ctx
    ensures ctx.Snapshot() == StyleToggled(old(ctx.Snapshot()))
  {
    ctx.showStyleAttrs := !ctx.showStyleAttrs;
    ctx.UpdateSqlFromState();
  }
}
