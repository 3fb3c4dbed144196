/** The entities of the diagram: tables, their columns and the foreign-key
    relationships between them, with the lookups every module shares. */
module Schema {
  import opened Wrappers
  import opened Text

  /** One column of a table. `refTable`/`refColumn` describe the foreign key
      the column carries, `fk` says whether it is one. */
  datatype Column = Column(
    name: string,
    typeName: string,
    pk: bool,
    increment: bool,
    notNull: bool,
    unique: bool,
    defaultValue: Option<string>,
    fk: bool,
    refTable: Option<string>,
    refColumn: Option<string>,
    note: Option<string>)

  /** One table. `x`, `y` is its top-left corner in world coordinates;
      `renderedWidth` is the width the page last measured for its card
      (absent until it is drawn). Each index lists its column names. */
  datatype Table = Table(
    name: string,
    columns: seq<Column>,
    indexes: seq<seq<string>>,
    note: string,
    icon: Option<string>,
    color: Option<string>,
    x: real,
    y: real,
    renderedWidth: Option<real>)

  /** "Column `fromColumn` of table `fromTable` references column `toColumn`
      of table `toTable`." */
  datatype Relationship = Relationship(
    fromTable: string,
    fromColumn: string,
    toTable: string,
    toColumn: string)

  /** JavaScript truthiness of an optional string: present and not empty. */
  predicate Truthy(o: Option<string>) {
    o.Some? && o.value != ""
  }

  /** A column as the table editor creates it: only name, type and key flag. */
  function PlainColumn(name: string, typeName: string, pk: bool): Column {
    Column(name, typeName, pk, false, pk, false, None, false, None, None, None)
  }

  /** `tables.findIndex(t => t.name === name)`. */
  function FindTable(tables: seq<Table>, name: string): (r: Option<nat>)
    ensures r.Some? ==> r.value < |tables| && tables[r.value].name == name
    ensures r.Some? ==> forall i :: 0 <= i < r.value ==> tables[i].name != name
    ensures r.None? ==> forall i :: 0 <= i < |tables| ==> tables[i].name != name
  {
    if |tables| == 0 then None
    else if tables[0].name == name then Some(0)
    else match FindTable(tables[1..], name)
      case Some(k) => Some(k + 1)
      case None => None
  }

  /** `columns.findIndex(c => c.name === name)`. */
  function FindColumn(columns: seq<Column>, name: string): (r: Option<nat>)
    ensures r.Some? ==> r.value < |columns| && columns[r.value].name == name
    ensures r.Some? ==> forall i :: 0 <= i < r.value ==> columns[i].name != name
    ensures r.None? ==> forall i :: 0 <= i < |columns| ==> columns[i].name != name
  {
    if |columns| == 0 then None
    else if columns[0].name == name then Some(0)
    else match FindColumn(columns[1..], name)
      case Some(k) => Some(k + 1)
      case None => None
  }

  predicate HasTable(tables: seq<Table>, name: string) {
    exists i :: 0 <= i < |tables| && tables[i].name == name
  }

  /** The column a relationship starts from carries the matching foreign key:
      the first table with the relationship's `fromTable` name exists, and its
      first column named `fromColumn` references `toTable`.`toColumn`. */
  predicate RelationshipBacked(tables: seq<Table>, r: Relationship) {
    match FindTable(tables, r.fromTable)
    case None => false
    case Some(ti) =>
      match FindColumn(tables[ti].columns, r.fromColumn)
      case None => false
      case Some(ci) =>
        var c := tables[ti].columns[ci];
        c.fk && c.refTable == Some(r.toTable) && c.refColumn == Some(r.toColumn)
  }

  /** The two representations of a foreign key agree: every relationship is
      backed by its column. */
  predicate Consistent(tables: seq<Table>, rels: seq<Relationship>) {
    forall k :: 0 <= k < |rels| ==> RelationshipBacked(tables, rels[k])
  }

  /** The one name a plain JavaScript object used as a dictionary does not
      store: `obj["__proto__"] = v` sets the object's prototype (and does
      nothing at all when `v` is a string), so `Object.entries` and
      `JSON.stringify` never list it. Table names are `\w+`, so a table
      may have this name. */
  const ProtoKey: string := "__proto__"

  /** `obj[k] = v` on a plain object used as a dictionary. */
  function ObjectPut<V>(m: map<string, V>, k: string, v: V): map<string, V> {
    if k == ProtoKey then m else m[k := v]
  }

  /** Two table lists with the same names in the same order. */
  predicate SameNames(a: seq<Table>, b: seq<Table>) {
    |a| == |b| && forall i :: 0 <= i < |a| ==> a[i].name == b[i].name
  }

  lemma {:induction false} FindTableSameNames(a: seq<Table>, b: seq<Table>, name: string)
    requires SameNames(a, b)
    ensures FindTable(a, name) == FindTable(b, name)
  {
    if |a| > 0 {
      assert SameNames(a[1..], b[1..]) by {
        forall i | 0 <= i < |a| - 1 ensures a[1..][i].name == b[1..][i].name {
          assert a[1..][i] == a[i + 1] && b[1..][i] == b[i + 1];
        }
      }
      FindTableSameNames(a[1..], b[1..], name);
    }
  }

  /** Two column lists with the same names in the same order. */
  predicate SameColumnNames(a: seq<Column>, b: seq<Column>) {
    |a| == |b| && forall i :: 0 <= i < |a| ==> a[i].name == b[i].name
  }

  lemma {:induction false} FindColumnSameNames(a: seq<Column>, b: seq<Column>, name: string)
    requires SameColumnNames(a, b)
    ensures FindColumn(a, name) == FindColumn(b, name)
  {
    if |a| > 0 {
      assert SameColumnNames(a[1..], b[1..]) by {
        forall i | 0 <= i < |a| - 1 ensures a[1..][i].name == b[1..][i].name {
          assert a[1..][i] == a[i + 1] && b[1..][i] == b[i + 1];
        }
      }
      FindColumnSameNames(a[1..], b[1..], name);
    }
  }

  /** A column appended at the end is found only where no earlier one is. */
  lemma FindColumnAppend(cols: seq<Column>, c: Column, name: string)
    ensures FindColumn(cols + [c], name)
            == if FindColumn(cols, name).Some? then FindColumn(cols, name)
               else if c.name == name then Some(|cols|) else None
  {
    assert forall i :: 0 <= i < |cols| ==> (cols + [c])[i] == cols[i];
    assert (cols + [c])[|cols|] == c;
  }
}
