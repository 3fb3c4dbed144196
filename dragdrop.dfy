/** The saved-schemas panel of `dragdrop.js`: saving the editor text under a
    name, replacing an entry of the same name or adding a new one in front,
    deleting by id, loading an entry back through the parser, and the
    "time ago" label of the list. The browser store is the sequence of
    entries the operations take and return; the clock is a parameter. */
module DragDrop {
  import opened Wrappers
  import opened Text
  import opened Schema
  import opened Session
  import opened Parser
  import opened App
  import opened Html

  /** One stored entry. */
  datatype SavedSchema = SavedSchema(
    id: string,
    name: string,
    dsl: string,
    icons: map<string, string>,
    colors: map<string, string>,
    tableCount: nat,
    savedAt: int)

  // ---------------------------------------------------------------------
  // Ids: `Date.now().toString(36)`
  // ---------------------------------------------------------------------

  predicate IsBase36Digit(c: char) {
    ('0' <= c <= '9') || ('a' <= c <= 'z')
  }

  function Base36Char(d: nat): (c: char)
    requires d < 36
    ensures IsBase36Digit(c)
  {
    if d < 10 then ('0' as int + d) as char else ('a' as int + d - 10) as char
  }

  function Base36CharValue(c: char): nat
    requires IsBase36Digit(c)
  {
    if c <= '9' then c as int - '0' as int else c as int - 'a' as int + 10
  }

  /** Lower-case base-36 rendering of a natural number. */
  function Base36(n: nat): (r: string)
    ensures |r| > 0
    ensures forall i :: 0 <= i < |r| ==> IsBase36Digit(r[i])
  {
    if n < 36 then [Base36Char(n)] else Base36(n / 36) + [Base36Char(n % 36)]
  }

  function Base36Value(s: string): nat
    requires forall i :: 0 <= i < |s| ==> IsBase36Digit(s[i])
  {
    if |s| == 0 then 0 else Base36Value(s[..|s| - 1]) * 36 + Base36CharValue(s[|s| - 1])
  }

  /** Reading the digits back gives the number. */
  lemma {:induction false} Base36RoundTrip(n: nat)
    ensures Base36Value(Base36(n)) == n
  {
    if n >= 36 {
      var s := Base36(n);
      assert s[..|s| - 1] == Base36(n / 36);
      Base36RoundTrip(n / 36);
    }
  }

  /** Entries saved at different instants get different ids. */
  lemma Base36Injective(m: nat, n: nat)
    requires m != n
    ensures Base36(m) != Base36(n)
  {
    Base36RoundTrip(m);
    Base36RoundTrip(n);
  }

  // ---------------------------------------------------------------------
  // Collecting icons and colours
  // ---------------------------------------------------------------------

  /** A table whose icon is worth storing: set and not the default. */
  predicate SavesIcon(t: Table) {
    Truthy(t.icon) && t.icon.value != "fa-table"
  }

  /** The `icons` object of `saveCurrentSchema`: every table with an icon
      other than the default records it under its name, later tables
      overwriting earlier ones; a table named `__proto__` records nothing,
      as the plain object drops that key. */
  function SavedIcons(ts: seq<Table>): (m: map<string, string>)
    ensures forall n :: n in m ==> m[n] != "" && m[n] != "fa-table"
    ensures ProtoKey !in m
  {
    if |ts| == 0 then map[]
    else
      var m := SavedIcons(ts[..|ts| - 1]);
      var t := ts[|ts| - 1];
      if SavesIcon(t) then ObjectPut(m, t.name, t.icon.value) else m
  }

  /** The last position holding a table of that name with an icon worth
      storing. */
  function LastSavedIcon(ts: seq<Table>, name: string): (r: Option<nat>)
    ensures r.Some? ==> r.value < |ts| && ts[r.value].name == name && SavesIcon(ts[r.value])
    ensures r.Some? ==> forall j :: r.value < j < |ts| && ts[j].name == name ==> !SavesIcon(ts[j])
    ensures r.None? ==> forall j :: 0 <= j < |ts| && ts[j].name == name ==> !SavesIcon(ts[j])
  {
    if |ts| == 0 then None
    else if ts[|ts| - 1].name == name && SavesIcon(ts[|ts| - 1]) then Some(|ts| - 1)
    else
      var init := ts[..|ts| - 1];
      assert forall j :: 0 <= j < |init| ==> init[j] == ts[j];
      LastSavedIcon(init, name)
  }

  /** A name other than `__proto__` is stored exactly when a table of that
      name has a custom icon, and it stores the icon of the last such table. */
  lemma {:induction false} SavedIconsAreLast(ts: seq<Table>, name: string)
    ensures name in SavedIcons(ts) <==> name != ProtoKey && LastSavedIcon(ts, name).Some?
    ensures name in SavedIcons(ts) ==> Some(SavedIcons(ts)[name]) == ts[LastSavedIcon(ts, name).value].icon
  {
    if |ts| > 0 {
      var init := ts[..|ts| - 1];
      SavedIconsAreLast(init, name);
      assert forall j :: 0 <= j < |init| ==> init[j] == ts[j];
    }
  }

  /** The `colors` object of `saveCurrentSchema`: every table whose colour
      is set records it under its name, later tables overwriting earlier
      ones, and again `__proto__` records nothing. */
  function SavedColours(ts: seq<Table>): map<string, string> {
    if |ts| == 0 then map[]
    else
      var m := SavedColours(ts[..|ts| - 1]);
      var t := ts[|ts| - 1];
      if Truthy(t.color) then ObjectPut(m, t.name, t.color.value) else m
  }

  /** The stored colours are the colours a parse carries over (the
      `prevColors` Map of `runParser`, which does keep `__proto__`), less
      the `__proto__` entry. */
  lemma {:induction false} SavedColoursCarried(ts: seq<Table>)
    ensures SavedColours(ts) == Carried(ts, Colour) - {ProtoKey}
  {
    if |ts| > 0 {
      SavedColoursCarried(ts[..|ts| - 1]);
    }
  }

  /** A name other than `__proto__` is stored exactly when some table of
      that name has its colour set, and it stores the colour of the last
      such table. */
  lemma SavedColoursAreSet(ts: seq<Table>, name: string)
    ensures name in SavedColours(ts) <==> name != ProtoKey && exists j :: 0 <= j < |ts| && ts[j].name == name && Truthy(ts[j].color)
    ensures name in SavedColours(ts) ==> Some(SavedColours(ts)[name]) == ts[LastStyled(ts, name, Colour).value].color
  {
    SavedColoursCarried(ts);
    CarriedIsLast(ts, Colour, name);
    var r := LastStyled(ts, name, Colour);
    if r.Some? {
      assert ts[r.value].name == name && Truthy(ts[r.value].color);
    }
  }

  /** A card called `__proto__` with a custom icon and a colour is saved
      with no style at all. */
  lemma ProtoTableSavesNoStyle(t: Table)
    requires t.name == ProtoKey && SavesIcon(t) && Truthy(t.color)
    ensures SavedIcons([t]) == map[] && SavedColours([t]) == map[]
  {
    assert [t][..0] == [];
  }

  /** The loop `for (const t of state.tables)` filling both maps. */
  method CollectStyles(ts: seq<Table>) returns (icons: map<string, string>, colors: map<string, string>)
    ensures icons == SavedIcons(ts)
    ensures colors == SavedColours(ts)
  {
    icons, colors := map[], map[];
    var i := 0;
    while i < |ts|
      invariant 0 <= i <= |ts|
      invariant icons == SavedIcons(ts[..i])
      invariant colors == SavedColours(ts[..i])
    {
      assert ts[..i + 1][..i] == ts[..i];
      var t := ts[i];
      if t.icon.Some? && t.icon.value != "" && t.icon.value != "fa-table" {
        icons := ObjectPut(icons, t.name, t.icon.value);
      }
      if t.color.Some? && t.color.value != "" {
        colors := ObjectPut(colors, t.name, t.color.value);
      }
      i := i + 1;
    }
    assert ts[..i] == ts;
  }

  // ---------------------------------------------------------------------
  // Saving
  // ---------------------------------------------------------------------

  /** The name an entry is saved under: the trimmed name field, or
      "Untitled Schema" when the field is missing or blank. */
  function SchemaName(nameInput: Option<string>): (r: string)
    ensures r != ""
    ensures nameInput.Some? && Trim(nameInput.value) != "" ==> r == Trim(nameInput.value)
    ensures nameInput.None? || Trim(nameInput.value) == "" ==> r == "Untitled Schema"
  {
    if nameInput.Some? && Trim(nameInput.value) != "" then Trim(nameInput.value) else "Untitled Schema"
  }

  /** The first entry of that name (`findIndex`). */
  function FirstSchemaNamed(schemas: seq<SavedSchema>, name: string): (r: Option<nat>)
    ensures r.Some? ==> r.value < |schemas| && schemas[r.value].name == name
    ensures r.Some? ==> forall j :: 0 <= j < r.value ==> schemas[j].name != name
    ensures r.None? ==> forall j :: 0 <= j < |schemas| ==> schemas[j].name != name
  {
    if |schemas| == 0 then None
    else if schemas[0].name == name then Some(0)
    else
      var r := FirstSchemaNamed(schemas[1..], name);
      if r.Some? then Some(r.value + 1) else None
  }

  /** The store after an entry is saved: an entry of the same name is
      replaced where it stands and keeps its id; otherwise the new entry
      goes in front. */
  function Upserted(schemas: seq<SavedSchema>, e: SavedSchema): seq<SavedSchema> {
    match FirstSchemaNamed(schemas, e.name)
    case Some(i) => schemas[i := e.(id := schemas[i].id)]
    case None => [e] + schemas
  }

  /** The entries whose name differs, in store order. */
  function OtherNames(schemas: seq<SavedSchema>, name: string): (r: seq<SavedSchema>)
    ensures forall s :: s in r <==> s in schemas && s.name != name
  {
    if |schemas| == 0 then []
    else (if schemas[0].name != name then [schemas[0]] else []) + OtherNames(schemas[1..], name)
  }

  function SchemaNames(schemas: seq<SavedSchema>): set<string> {
    set s | s in schemas :: s.name
  }

  predicate DistinctNames(schemas: seq<SavedSchema>) {
    forall i, j :: 0 <= i < j < |schemas| ==> schemas[i].name != schemas[j].name
  }

  lemma OtherNamesUpdate(schemas: seq<SavedSchema>, i: nat, e: SavedSchema)
    requires i < |schemas| && schemas[i].name == e.name
    ensures OtherNames(schemas[i := e], e.name) == OtherNames(schemas, e.name)
  {
    if i > 0 {
      assert schemas[i := e][1..] == schemas[1..][i - 1 := e];
      OtherNamesUpdate(schemas[1..], i - 1, e);
    }
  }

  /** Saving leaves every entry of another name where it was, and the first
      entry of that name afterwards holds what was saved. */
  lemma UpsertedContents(schemas: seq<SavedSchema>, e: SavedSchema)
    ensures var r := Upserted(schemas, e);
            OtherNames(r, e.name) == OtherNames(schemas, e.name)
            && FirstSchemaNamed(r, e.name).Some?
            && r[FirstSchemaNamed(r, e.name).value].(id := e.id) == e
  {
    var r := Upserted(schemas, e);
    match FirstSchemaNamed(schemas, e.name)
    case Some(i) =>
      var e' := e.(id := schemas[i].id);
      OtherNamesUpdate(schemas, i, e');
      assert r[i] == e';
      assert forall j :: 0 <= j < i ==> r[j] == schemas[j];
    case None =>
      assert r[1..] == schemas;
  }

  /** Saving adds the name to the names of the store, and no other. */
  lemma UpsertedNames(schemas: seq<SavedSchema>, e: SavedSchema)
    ensures SchemaNames(Upserted(schemas, e)) == SchemaNames(schemas) + {e.name}
  {
    var r := Upserted(schemas, e);
    match FirstSchemaNamed(schemas, e.name)
    case Some(i) =>
      assert |r| == |schemas| && r[i].name == e.name;
      assert forall j :: 0 <= j < |r| ==> r[j].name == schemas[j].name;
      forall n | n in SchemaNames(schemas) ensures n in SchemaNames(r) {
        var j :| 0 <= j < |schemas| && schemas[j].name == n;
        assert r[j] in r;
      }
      forall n | n in SchemaNames(r) ensures n in SchemaNames(schemas) {
        var j :| 0 <= j < |r| && r[j].name == n;
        assert schemas[j] in schemas;
      }
    case None =>
      forall n | n in SchemaNames(r) ensures n in SchemaNames(schemas) + {e.name} {
        var s :| s in r && s.name == n;
        assert s == e || s in schemas;
      }
  }

  /** Saving keeps the names of the store distinct. */
  lemma UpsertedKeepsNamesDistinct(schemas: seq<SavedSchema>, e: SavedSchema)
    requires DistinctNames(schemas)
    ensures DistinctNames(Upserted(schemas, e))
  {
    var r := Upserted(schemas, e);
    match FirstSchemaNamed(schemas, e.name)
    case Some(i) =>
      assert forall j :: 0 <= j < |r| ==> r[j].name == schemas[j].name;
    case None =>
      assert forall j :: 1 <= j < |r| ==> r[j] == schemas[j - 1];
  }

  /** A replacement keeps the ids of the store; a new entry adds its own. */
  lemma UpsertedIds(schemas: seq<SavedSchema>, e: SavedSchema)
    ensures var ids := set s | s in schemas :: s.id;
            var ids' := set s | s in Upserted(schemas, e) :: s.id;
            ids' == if FirstSchemaNamed(schemas, e.name).Some? then ids else ids + {e.id}
  {
    var r := Upserted(schemas, e);
    var ids := set s | s in schemas :: s.id;
    var ids' := set s | s in r :: s.id;
    match FirstSchemaNamed(schemas, e.name)
    case Some(i) =>
      assert |r| == |schemas|;
      assert forall j :: 0 <= j < |r| ==> r[j].id == schemas[j].id;
      forall x | x in ids ensures x in ids' {
        var s :| s in schemas && s.id == x;
        var j :| 0 <= j < |schemas| && schemas[j] == s;
        assert r[j].id == x;
      }
      forall x | x in ids' ensures x in ids {
        var s :| s in r && s.id == x;
        var j :| 0 <= j < |r| && r[j] == s;
        assert schemas[j].id == x;
      }
    case None =>
      forall x | x in ids' ensures x in ids + {e.id} {
        var s :| s in r && s.id == x;
        assert s == e || s in schemas;
      }
  }

  /** The entry `saveCurrentSchema` builds at time `now`. */
  function Entry(dsl: string, name: string, tables: seq<Table>, now: nat): SavedSchema {
    SavedSchema(Base36(now), name, dsl, SavedIcons(tables), SavedColours(tables), |tables|, now)
  }

  /** `saveCurrentSchema`: the new store, or `None` ("Nothing to save") when
      the trimmed editor text is empty or there is no table. */
  function SavedCurrent(stored: seq<SavedSchema>, sqlText: string, tables: seq<Table>,
                        nameInput: Option<string>, now: nat): (r: Option<seq<SavedSchema>>)
    ensures r.None? <==> Trim(sqlText) == "" || |tables| == 0
  {
    var dsl := Trim(sqlText);
    if dsl == "" || |tables| == 0 then None
    else Some(Upserted(stored, Entry(dsl, SchemaName(nameInput), tables, now)))
  }

  /** `saveCurrentSchema` on the page: reads the editor and the tables and
      returns the store to write back. */
  method SaveCurrentSchema(ctx: Context, stored: seq<SavedSchema>, nameInput: Option<string>, now: nat)
    returns (r: Option<seq<SavedSchema>>)
    ensures r == SavedCurrent(stored, ctx.sqlText, ctx.tables, nameInput, now)
  {
    var dsl := Trim(ctx.sqlText);
    if dsl == "" || |ctx.tables| == 0 {
      return None;
    }
    var name := SchemaName(nameInput);
    var icons, colors := CollectStyles(ctx.tables);
    var e := SavedSchema(Base36(now), name, dsl, icons, colors, |ctx.tables|, now);
    r := Some(Upserted(stored, e));
  }

  // ---------------------------------------------------------------------
  // Deleting
  // ---------------------------------------------------------------------

  /** `deleteSchema`: the entries with another id, in store order. */
  function SchemasWithout(schemas: seq<SavedSchema>, id: string): (r: seq<SavedSchema>)
    ensures forall s :: s in r <==> s in schemas && s.id != id
    ensures |r| <= |schemas|
  {
    if |schemas| == 0 then []
    else (if schemas[0].id != id then [schemas[0]] else []) + SchemasWithout(schemas[1..], id)
  }

  /** The filter keeps order: it works piece by piece. */
  lemma {:induction false} SchemasWithoutConcat(a: seq<SavedSchema>, b: seq<SavedSchema>, id: string)
    ensures SchemasWithout(a + b, id) == SchemasWithout(a, id) + SchemasWithout(b, id)
  {
    if |a| > 0 {
      var head := if a[0].id != id then [a[0]] else [];
      var ab := a + b;
      assert ab[0] == a[0] && ab[1..] == a[1..] + b;
      assert SchemasWithout(ab, id) == head + SchemasWithout(a[1..] + b, id);
      assert SchemasWithout(a, id) == head + SchemasWithout(a[1..], id);
      SchemasWithoutConcat(a[1..], b, id);
    } else {
      assert a + b == b;
    }
  }

  /** Deleting an id no entry has leaves the store as it is. */
  lemma {:induction false} SchemasWithoutAbsent(schemas: seq<SavedSchema>, id: string)
    requires forall s :: s in schemas ==> s.id != id
    ensures SchemasWithout(schemas, id) == schemas
  {
    if |schemas| > 0 {
      SchemasWithoutAbsent(schemas[1..], id);
      assert schemas == [schemas[0]] + schemas[1..];
    }
  }

  /** Saving a new name under a fresh id and deleting that id gives back
      the store. */
  lemma DeleteUndoesNewSave(schemas: seq<SavedSchema>, e: SavedSchema)
    requires FirstSchemaNamed(schemas, e.name).None?
    requires forall s :: s in schemas ==> s.id != e.id
    ensures SchemasWithout(Upserted(schemas, e), e.id) == schemas
  {
    SchemasWithoutConcat([e], schemas, e.id);
    SchemasWithoutAbsent(schemas, e.id);
    assert SchemasWithout([e], e.id) == [];
  }

  // ---------------------------------------------------------------------
  // Loading
  // ---------------------------------------------------------------------

  /** `loadSchema`: the saved text goes into the editor, its icons and
      colours are left for the parse, and the parser runs. */
  function Loaded(s: State, e: SavedSchema): State {
    RanParser(s.(sqlText := e.dsl, pendingIcons := Some(e.icons), pendingColors := Some(e.colors)))
  }

  /** Loading an entry saved from tables `ts` gives each parsed table whose
      name had a custom icon that icon, and each parsed table without a
      colour of its own the saved colour of its name. A name with nothing
      saved, `__proto__` among them, keeps what the parse alone gives it:
      the style of the last current table of that name, else its own. */
  lemma LoadRestoresStyles(s: State, dsl: string, name: string, ts: seq<Table>, now: nat, i: nat)
    requires i < |ParseDsl(dsl).tables|
    ensures var e := Entry(dsl, name, ts, now);
            var t := ParseDsl(dsl).tables[i];
            var r := Loaded(s, e);
            (t.name in SavedIcons(ts) ==> r.tables[i].icon == Some(SavedIcons(ts)[t.name]))
            && (t.name !in SavedIcons(ts) ==>
                  r.tables[i].icon == if LastStyled(s.tables, t.name, Icon).Some? then s.tables[LastStyled(s.tables, t.name, Icon).value].icon else t.icon)
            && (t.name in SavedColours(ts) && !Truthy(t.color) ==> r.tables[i].color == Some(SavedColours(ts)[t.name]))
            && (t.name !in SavedColours(ts) && !Truthy(t.color) ==>
                  r.tables[i].color == if LastStyled(s.tables, t.name, Colour).Some? then s.tables[LastStyled(s.tables, t.name, Colour).value].color else t.color)
            && (Truthy(t.color) ==> r.tables[i].color == t.color)
  {
    var e := Entry(dsl, name, ts, now);
    var s' := s.(sqlText := e.dsl, pendingIcons := Some(e.icons), pendingColors := Some(e.colors));
    RunParserIcon(s', i);
    RunParserColour(s', i);
  }

  /** Text that holds no table loads nothing, and its icons and colours
      stay pending for the next parse. */
  lemma LoadWithoutTables(s: State, e: SavedSchema)
    requires |ParseDsl(e.dsl).tables| == 0
    ensures Loaded(s, e) == s.(sqlText := e.dsl, pendingIcons := Some(e.icons), pendingColors := Some(e.colors))
  {
  }

  /** `loadSchema` on the page. */
  method LoadSchema(ctx: Context, e: SavedSchema)
    modifies ctx
    ensures ctx.Snapshot() == Loaded(old(ctx.Snapshot()), e)
  {
    ctx.StartLoad(e.dsl, e.icons, e.colors);
    RunParser(ctx);
  }

  // ---------------------------------------------------------------------
  // The list
  // ---------------------------------------------------------------------

  /** The buckets of `timeAgo`. */
  datatype Ago = JustNow | MinutesAgo(minutes: nat) | HoursAgo(hours: nat) | DaysAgo(days: nat) | OnDate(ts: int)

  /** `timeAgo(ts)` at clock reading `now`: whole minutes, then whole hours,
      then whole days of the elapsed time, and past thirty days the date.
      A timestamp in the future reads "just now". */
  function TimeAgo(now: int, ts: int): (r: Ago)
    ensures r.JustNow? <==> now - ts < 60000
    ensures r.MinutesAgo? ==> 1 <= r.minutes < 60 && r.minutes * 60000 <= now - ts < (r.minutes + 1) * 60000
    ensures r.HoursAgo? ==> 1 <= r.hours < 24 && r.hours * 3600000 <= now - ts < (r.hours + 1) * 3600000
    ensures r.DaysAgo? ==> 1 <= r.days < 30 && r.days * 86400000 <= now - ts < (r.days + 1) * 86400000
    ensures r.OnDate? <==> now - ts >= 30 * 86400000
    ensures r.OnDate? ==> r.ts == ts
  {
    var mins := (now - ts) / 60000;
    if mins < 1 then JustNow
    else if mins < 60 then MinutesAgo(mins)
    else
      var hours := mins / 60;
      if hours < 24 then HoursAgo(hours)
      else
        var days := hours / 24;
        if days < 30 then DaysAgo(days) else OnDate(ts)
  }

  /** The label of a bucket; the date one is the locale's rendering of the
      timestamp, given as `date`. */
  function AgoText(a: Ago, date: string): string {
    match a
    case JustNow => "just now"
    case MinutesAgo(m) => NatToString(m) + "m ago"
    case HoursAgo(h) => NatToString(h) + "h ago"
    case DaysAgo(d) => NatToString(d) + "d ago"
    case OnDate(_) => date
  }

  /** The count in a "m/h/d ago" label reads back from its digits. */
  lemma AgoTextCount(a: Ago, date: string)
    requires a.MinutesAgo? || a.HoursAgo? || a.DaysAgo?
    ensures var r := AgoText(a, date);
            var n := if a.MinutesAgo? then a.minutes else if a.HoursAgo? then a.hours else a.days;
            var unit := if a.MinutesAgo? then 'm' else if a.HoursAgo? then 'h' else 'd';
            |r| > 5 && r[|r| - 5..] == [unit] + " ago"
            && (forall i :: 0 <= i < |r| - 5 ==> IsDigit(r[i]))
            && DigitsValue(r[..|r| - 5]) == n
  {
    var n := if a.MinutesAgo? then a.minutes else if a.HoursAgo? then a.hours else a.days;
    var r := AgoText(a, date);
    assert r[..|r| - 5] == NatToString(n);
    NatToStringValue(n);
  }

  /** The name shown in a list item: escaped, so it cannot open a tag or
      close an attribute, and it reads back to the stored name. */
  function ItemName(e: SavedSchema): (r: string)
    ensures '<' !in r && '>' !in r && '"' !in r
    ensures Unescape(r) == e.name
  {
    EscapeHtmlSafe(e.name);
    EscapeHtml(e.name)
  }
}
