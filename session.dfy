/** The application state of the editor (`state` in `state.js`): one mutable
    record that every part of the page reads and updates in place, together
    with the few pieces of page state (open modals, the editor text, the
    theme) and handler closures (a card drag, a marquee) the operations use. */
module Session {
  import opened Wrappers
  import opened Schema
  import opened Geometry
  import opened Generator

  /** A connection being dragged out of a table: the pointer that owns it, the
      table and side it leaves from, where the pointer is now, and the table
      under the pointer when that is another table. */
  datatype Draft = Draft(
    pointerId: int,
    fromTable: string,
    fromPoint: Point,
    fromSide: Side,
    currentPoint: Point,
    targetTable: Option<string>)

  /** A table-card drag in progress (the `dragState` variable in the
      closure of one card): the pointer that owns the drag, the client point
      where it started, the table's position then, and, for a group drag, the
      selected tables' names with their positions then (one entry per name,
      the first table of that name). */
  datatype TableDrag = TableDrag(
    pointerId: int,
    startX: real,
    startY: real,
    originX: real,
    originY: real,
    isGroupDrag: bool,
    groupOrigins: seq<(string, Point)>)

  /** The open relation popover. A new-relationship editor knows the two
      tables it connects; an edit editor is bound to one relationship and
      to its table and foreign-key column, each given by position. */
  datatype RelationEditor =
    | CreateEditor(fromTable: string, toTable: string)
    | EditEditor(relIndex: nat, tableIndex: nat, columnIndex: nat)

  /** A snapshot of every field of the page state, the value the operations'
      specifications are written on. */
  datatype State = State(
    tables: seq<Table>,
    relationships: seq<Relationship>,
    zoom: real,
    panX: real,
    panY: real,
    selectedTables: seq<string>,
    hoveredTable: Option<string>,
    isPanning: bool,
    isDraggingTable: Option<string>,
    connectionDraft: Option<Draft>,
    relationEditor: Option<RelationEditor>,
    dragStart: Point,
    panStart: Point,
    showStyleAttrs: bool,
    editingTable: Option<string>,
    pendingIcons: Option<map<string, string>>,
    pendingColors: Option<map<string, string>>,
    sqlText: string,
    theme: Option<string>,
    tableModalOpen: bool,
    pngModalOpen: bool,
    tableDrags: map<nat, TableDrag>,
    marqueeStart: Option<Point>,
    isMarquee: bool,
    draftListeners: seq<string>)

  /** `cancelConnectionDraft`: the draft, if any, is dropped. */
  function CancelDraft(s: State): State
  {
    s.(connectionDraft := None)
  }

  /** `closeRelationEditor`: the popover, if any, is closed. */
  function CloseEditor(s: State): State
  {
    s.(relationEditor := None)
  }

  /** `updateSQLFromState`: the editor text becomes the generated DSL of the
      tables, with or without style attributes as the toggle says. */
  function SyncSql(s: State): State
  {
    s.(sqlText := DslText(s.tables, s.showStyleAttrs))
  }

  /** The page state. */
  class Context {
    var tables: seq<Table>
    var relationships: seq<Relationship>
    var zoom: real
    var panX: real
    var panY: real
    var selectedTables: seq<string>
    var hoveredTable: Option<string>
    var isPanning: bool
    var isDraggingTable: Option<string>
    var connectionDraft: Option<Draft>
    var relationEditor: Option<RelationEditor>
    var dragStart: Point
    var panStart: Point
    var showStyleAttrs: bool
    /** The table the table modal edits (`state.editingTable`), by name. */
    var editingTable: Option<string>
    /** Icons and colours a loaded schema hands to the next parse. */
    var pendingIcons: Option<map<string, string>>
    var pendingColors: Option<map<string, string>>
    /** Page state outside `state`: the DSL text, the theme attribute and
        whether the two modals are shown. */
    var sqlText: string
    var theme: Option<string>
    var tableModalOpen: bool
    var pngModalOpen: bool
    /** Handler closures. Each card keeps its own drag, so the drags are
        keyed by the card, that is by the position of its table when the
        cards were last built; building the cards again drops them all. */
    var tableDrags: map<nat, TableDrag>
    /** The canvas marquee. */
    var marqueeStart: Option<Point>
    var isMarquee: bool
    /** The connection drafts whose `document` listeners are still
        registered, oldest first, each given by the name of the table it
        started from; a draft's listeners are removed only when that draft's
        own release finishes it. */
    var draftListeners: seq<string>

    function Snapshot(): State
      reads this
    {
      State(tables, relationships, zoom, panX, panY, selectedTables, hoveredTable,
            isPanning, isDraggingTable, connectionDraft, relationEditor, dragStart,
            panStart, showStyleAttrs, editingTable, pendingIcons, pendingColors,
            sqlText, theme, tableModalOpen, pngModalOpen, tableDrags, marqueeStart,
            isMarquee, draftListeners)
    }

    /** Stores new tables and relationships; nothing else changes. */
    method SetSchema(ts: seq<Table>, rels: seq<Relationship>)
      modifies this
      ensures Snapshot() == old(Snapshot()).(tables := ts, relationships := rels)
    {
      tables := ts;
      relationships := rels;
    }

    /** Stores a new zoom and pan; nothing else changes. */
    method SetView(z: real, px: real, py: real)
      modifies this
      ensures Snapshot() == old(Snapshot()).(zoom := z, panX := px, panY := py)
    {
      zoom := z;
      panX := px;
      panY := py;
    }

    /** Moves the view by a pan step and records where the pointer is. */
    method SetPan(px: real, py: real, start: Point)
      modifies this
      ensures Snapshot() == old(Snapshot()).(panX := px, panY := py, panStart := start)
    {
      panX := px;
      panY := py;
      panStart := start;
    }

    /** Starts a pan from `start`. */
    method StartPan(start: Point)
      modifies this
      ensures Snapshot() == old(Snapshot()).(isPanning := true, panStart := start)
    {
      isPanning := true;
      panStart := start;
    }

    /** Records a press on empty canvas that may become a marquee. */
    method StartMarquee(start: Point)
      modifies this
      ensures Snapshot() == old(Snapshot()).(marqueeStart := Some(start), isMarquee := false)
    {
      marqueeStart := Some(start);
      isMarquee := false;
    }

    /** Stores a new selection and ends any marquee; nothing else changes. */
    method EndMarquee(sel: seq<string>)
      modifies this
      ensures Snapshot() == old(Snapshot()).(selectedTables := sel, marqueeStart := None, isMarquee := false)
    {
      selectedTables := sel;
      marqueeStart := None;
      isMarquee := false;
    }

    /** Stores new tables; nothing else changes. */
    method SetTables(ts: seq<Table>)
      modifies this
      ensures Snapshot() == old(Snapshot()).(tables := ts)
    {
      tables := ts;
    }

    /** Ends the drag of card `ti` and stores the settled tables; nothing
        else changes. */
    method EndTableDrag(ti: nat, ts: seq<Table>)
      modifies this
      ensures Snapshot() == old(Snapshot()).(tables := ts, tableDrags := old(tableDrags) - {ti}, isDraggingTable := None)
    {
      tables := ts;
      tableDrags := tableDrags - {ti};
      isDraggingTable := None;
    }

    /** A new draft starts and registers its listeners after those still
        registered; nothing else changes. */
    method BeginDraft(d: Draft)
      modifies this
      ensures Snapshot() == old(Snapshot()).(connectionDraft := Some(d), draftListeners := old(draftListeners) + [d.fromTable])
    {
      connectionDraft := Some(d);
      draftListeners := draftListeners + [d.fromTable];
    }

    /** The oldest registered draft listener finishes the draft: the draft
        is dropped and that listener removed; nothing else changes. */
    method DropDraft()
      requires |draftListeners| > 0
      modifies this
      ensures Snapshot() == old(Snapshot()).(connectionDraft := None, draftListeners := old(draftListeners)[1..])
    {
      connectionDraft := None;
      draftListeners := draftListeners[1..];
    }

    /** The cards are built again: every card's drag is gone with its
        closure; nothing else changes. */
    method RebuildCards()
      modifies this
      ensures Snapshot() == old(Snapshot()).(tableDrags := map[])
    {
      tableDrags := map[];
    }

    /** Drops the icons and colours a loaded schema left for the next parse. */
    method ConsumePending()
      modifies this
      ensures Snapshot() == old(Snapshot()).(pendingIcons := None, pendingColors := None)
    {
      pendingIcons := None;
      pendingColors := None;
    }

    /** Stores a new selection; nothing else changes. */
    method SetSelection(sel: seq<string>)
      modifies this
      ensures Snapshot() == old(Snapshot()).(selectedTables := sel)
    {
      selectedTables := sel;
    }

    /** Replaces the editor text; nothing else changes. */
    method SetSqlText(text: string)
      modifies this
      ensures Snapshot() == old(Snapshot()).(sqlText := text)
    {
      sqlText := text;
    }

    /** Puts a saved text in the editor and leaves its icons and colours for
        the next parse; nothing else changes. */
    method StartLoad(text: string, icons: map<string, string>, colors: map<string, string>)
      modifies this
      ensures Snapshot() == old(Snapshot()).(sqlText := text, pendingIcons := Some(icons), pendingColors := Some(colors))
    {
      sqlText := text;
      pendingIcons := Some(icons);
      pendingColors := Some(colors);
    }

    /** `updateSQLFromState`: regenerates the editor text from the tables. */
    method UpdateSqlFromState()
      modifies this
      ensures Snapshot() == SyncSql(old(Snapshot()))
    {
      sqlText := Generate(tables, showStyleAttrs);
    }

    /** The initial state of the page. */
    constructor ()
      ensures tables == [] && relationships == []
      ensures zoom == 1.0 && panX == 0.0 && panY == 0.0
      ensures selectedTables == [] && hoveredTable == None && !isPanning
      ensures isDraggingTable == None && connectionDraft == None && relationEditor == None
      ensures dragStart == Point(0.0, 0.0) && panStart == Point(0.0, 0.0)
      ensures showStyleAttrs && editingTable == None
      ensures pendingIcons == None && pendingColors == None
      ensures sqlText == "" && theme == None && !tableModalOpen && !pngModalOpen
      ensures tableDrags == map[] && marqueeStart == None && !isMarquee && draftListeners == []
    {
      tables := [];
      relationships := [];
      zoom := 1.0;
      panX := 0.0;
      panY := 0.0;
      selectedTables := [];
      hoveredTable := None;
      isPanning := false;
      isDraggingTable := None;
      connectionDraft := None;
      relationEditor := None;
      dragStart := Point(0.0, 0.0);
      panStart := Point(0.0, 0.0);
      showStyleAttrs := true;
      editingTable := None;
      pendingIcons := None;
      pendingColors := None;
      sqlText := "";
      theme := None;
      tableModalOpen := false;
      pngModalOpen := false;
      tableDrags := map[];
      marqueeStart := None;
      isMarquee := false;
      draftListeners := [];
    }
  }
}
