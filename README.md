# Navani SQL diagram editor — a Dafny model of its core

Navani SQL is a browser editor for entity–relationship diagrams. The user writes
a schema in a small DBML-like language (`Table name [icon: …, color: …] { column
type [pk, not null, ref: > other.id, …] … }`), or builds it on a canvas. The page
keeps one state record: the tables with their columns, the relationships between
columns, the selection, the connection draft, the open editors, pan and zoom.
From that state it writes the diagram text and a SQL DDL script back. It draws
each relationship as an orthogonal connector with lanes where several
connectors share a port, and can lay out the tables automatically in layers.

The model follows the program's files, one module each:

- `Wrappers`, `Text`, `Schema`: options, JavaScript string operations on
  `seq<char>`, and the table, column and relationship records with lookup by name.
- `Parser`, `Generator`: `parse`, `parseConstraints`, `normalizeType`,
  `generate`, `generateSQL` and `sqlType` from `js/parser.js`.
- `RoundTrip`, `ReadBack`: what the parser reads back from the text the
  generator writes, up to the full `parse(generate(tables))` round trip.
- `Geometry`, `Layout`, `Router`: `js/geometry.js` (box sizes, anchors, side
  choice, lane offsets, polylines, overlap relaxation, hit testing), the layered
  auto-layout, and the two-pass lane allocator, cardinality labels and draft
  preview of `js/render-relationships.js`.
- `Session`: the page's state record as a class (`Session.Context`) whose
  methods reassign its fields; the `State` datatype is a snapshot of those fields.
  The state the page keeps in handler closures is there too. Each card's drag
  is kept per card, and the connection drafts' `document` listeners are listed
  while they stay registered.
- `Relationships`, `Tables`, `App`, `Modals`, `Viewport`, `DragDrop`, `Editor`
  (`js/ui.js`), `Html`: the state changes of those files. Each method
  is proved to produce a specification function of its inputs and the old state.
  Lemmas about those functions state what the program promises: a delete
  cascades, zoom stays in [0.25, 2], and so on. The relationship list and
  the columns' foreign-key fields stay in step (`Schema.Consistent`) through
  a new relationship, a column append, a table delete or rename, and the
  popover's delete and save (each under the condition its lemma states). A
  modal edit does not keep them in step: it gives the edited table columns
  without foreign keys and keeps that table's relationships.
- `LayoutExample`: the auto-layout run on a concrete three-table schema.

Coordinates are `real`. The DOM-measured width `_renderedWidth` is an optional
input, and `|| 220` treats 0 as absent. The clock (`Date.now()`), the container
size, the layout widths and the saved-schema store are parameters.

## Model

| member | source | states |
|---|---|---|
| Schema.FindTable | js/render-relationships.js:13-14 | the index found holds a table of that name and no earlier one does; none is found exactly when no table has the name |
| Schema.FindColumn | js/render-relationships.js:18-19 | the index found holds a column of that name and no earlier one does; none is found exactly when no column has the name |
| Schema.FindTableSameNames | js/tables.js:259 | lookups by name depend only on the names, in order: moving or restyling tables never changes what a name finds |
| Schema.FindColumnSameNames | js/relationships.js:289 | the same for columns |
| Schema.FindColumnAppend | js/relationships.js:112 | a column appended at the end is found only by a name no earlier column has |
| Text.Lower | js/parser.js:136 | `toLowerCase` keeps the length and maps each character on its own |
| Text.Upper | js/parser.js:344 | `toUpperCase` keeps the length and maps each character on its own |
| Text.LowerConcat | js/parser.js:136 | lower-casing distributes over concatenation |
| Text.TrimStart | js/parser.js:37 | the result is a suffix not starting with a space, and only spaces were removed |
| Text.TrimEnd | js/parser.js:37 | the result is a prefix not ending with a space, and only spaces were removed |
| Text.Trim | js/parser.js:37 | the trimmed text neither starts nor ends with a space |
| Text.TrimLeadingSpaces | js/parser.js:133 | trimming a trimmed text after spaces gives the text back |
| Text.Split | js/parser.js:133 | `split` gives at least one piece and no piece holds the separator |
| Text.SplitConcat | js/parser.js:152 | splitting `a sep b` gives `a` followed by the pieces of `b` |
| Text.IndexOf | js/parser.js:151 | `indexOf` finds the first occurrence, and none exactly when the character is absent |
| Text.CountChar | js/parser.js:37 | the count is at most the length, and zero exactly when the character is absent |
| Text.NatToStringValue | js/dragdrop.js:128-131 | a number's decimal text reads back as the number |
| Text.NatToStringInjective | js/dragdrop.js:128-131 | different numbers have different decimal texts |
| Text.RemoveChar | js/parser.js:159 | a global `replace` by the empty string leaves no occurrence |
| Text.ReplaceCharConcat | js/parser.js:133 | a global one-character `replace` works piece by piece |
| RoundTrip.Recovered | js/parser.js:103-112 | the reader gives back one table per written table, each the recovered form of its own |
| RoundTrip.ItemsGood | js/parser.js:231-252 | every item `generate` writes for a writable column is plain and trimmed |
| RoundTrip.ItemsOfRest | js/parser.js:133 | the bracketed list `generate` writes loses its brackets and splits back into its items |
| RoundTrip.ConstraintsRoundTrip | js/parser.js:119-164 | `parseConstraints` reads back what `generate` writes for a column: key flags (an `increment` key stays a key, and the other flags of a key column are not written), default, reference, which also makes it required, and note |
| RoundTrip.FoldItems | js/parser.js:135-161 | the items of a column, applied in order, build exactly the expected record |
| RoundTrip.ApplyRef | js/parser.js:149-157 | `ref: > t.col` gives back the target and sets not null |
| RoundTrip.ApplyNote | js/parser.js:158-160 | `note: 'n'` gives back `n` when it holds no quotes |
| RoundTrip.ApplyDefault | js/parser.js:147-148 | `default: v` gives back `v` |
| RoundTrip.MatchColumnText | js/parser.js:68 | the column pattern splits a written column line into its name, its type and its bracketed list |
| LayoutExample.LayersOf | js/geometry.js:436-470 | for the pattern users <- posts <- comments with comments -> users, the comments table is on layer 1, not 2: the walk places a table by its first discovery |
| LayoutExample.BlogLayers | js/geometry.js:436-470 | the same with the names of a blog schema |
| LayoutExample.RunOf | js/geometry.js:454-464 | the walk on that pattern finishes with both referencing tables on layer 1 |
| Parser.StripLineComments | js/parser.js:11-12 | every `//` goes with the rest of its line, the line break stays, and no `//` is left in the result |
| Parser.StripBlockComments | js/parser.js:13 | each `/*` is removed up to the first `*/` after it; the text never grows |
| Parser.StripCommentsNoSlash | js/parser.js:10-13 | text without a `/` passes comment removal unchanged |
| Parser.MatchTable | js/parser.js:16 | a table match is non-empty, starts with `table` in any case, has a non-empty word as its name and a body without `}` |
| Parser.MatchBody | js/parser.js:16 | the lazy body group ends at the first `}`, which ends the match |
| Parser.MatchAttrs | js/parser.js:16 | the optional `[...]` group runs to the first `]`; a match through it keeps the name and has a body without `}` |
| Parser.ScanTables | js/parser.js:16-19 | the `exec` matches, each search resuming after the previous match; no body holds a `}` |
| Parser.FindIcon | js/parser.js:27-28 | a table icon is a non-empty run of word characters and `-` |
| Parser.FindColor | js/parser.js:29-30 | a table colour is `#` followed by six hex digits |
| Parser.CleanLines | js/parser.js:37 | the body lines are trimmed and none of them is empty |
| Parser.NoteText | js/parser.js:44-46 | only a line starting with `note:` in any case gives a note |
| Parser.IndexLine | js/parser.js:51 | an index line needs a `}` on the line itself |
| Parser.MatchColumn | js/parser.js:68 | a column line has a non-empty word as its name |
| Parser.RefOf | js/parser.js:151-156 | a reference always names a column; a missing one is `id` |
| Parser.ParseConstraints | js/parser.js:119-164 | the loop over the trimmed items gives the fold of the items over the defaults; empty text gives the defaults |
| Parser.FoldFlag | js/parser.js:135-161 | a flag is set after the items exactly when it was set before or some item sets it; no item clears one |
| Parser.ParsedFlags | js/parser.js:119-164 | a flag of the parsed record is set exactly when the text is non-empty and one of its items sets it |
| Parser.FoldLastRef | js/parser.js:149-157 | the last `ref:` item decides the target |
| Parser.ParsedCoherent | js/parser.js:138-157 | an increment item makes the column a key, and a reference makes it required, whatever else the list holds |
| Parser.RefOfTarget | js/parser.js:149-156 | `ref: > t.c` with word names targets table `t`, column `c` |
| Parser.RefWithoutArrow | js/parser.js:151-156 | without `>` the whole item is the table part: `ref: t.c` targets a table named `ref: t` |
| Parser.RefOfTableOnly | js/parser.js:151-156 | `ref: > t` targets `t.id` |
| Parser.RemoveFirstGroup | js/parser.js:196 | removing the first parenthesised group never lengthens the type |
| Parser.NormalizeShape | js/parser.js:167-209 | a type `word` or `word(size)` becomes the word's synonym, or the word in lower case, followed by the size written back without spaces |
| Parser.NormalizeSpacedSize | js/parser.js:196-208 | a size with a space after its comma, as in `DECIMAL(10, 2)`, is dropped: the type reads as plain `decimal` |
| Parser.ColumnOf | js/parser.js:68-89 | a parsed column keeps its name, is a foreign key exactly when its constraints hold a reference, and a foreign key is required and names a column |
| Parser.Parse | js/parser.js:6-116 | the `exec` loop gives the same tables and relationships as the reading function |
| Parser.ParseAt | js/parser.js:19-113 | one round of the loop makes progress and keeps the eventual result unchanged |
| Parser.ParseTableBody | js/parser.js:32-112 | the line loop over one table body builds the table the match describes |
| Parser.ParseLinesRefs | js/parser.js:91-99 | the relationships collected from a body are exactly one per column with a reference, in column order |
| Parser.ParseLinesNoIndexes | js/parser.js:50-65 | a line without `}` never adds an index, so no body, which ends at its first `}`, ever adds one |
| Parser.TableOfFacts | js/parser.js:103-112 | each match yields one table at the origin without indexes, and its relationships are its foreign-key columns' |
| Parser.ParsedTables | js/parser.js:6-116 | every parsed table is at (0, 0) without indexes, and the relationships are exactly one per column with a reference, from that table and column to its target, in order |
| Generator.OrElse | js/parser.js:246 | `o || d`: the value when it is set and non-empty, the default otherwise |
| Generator.StyleAttrs | js/parser.js:218-222 | no attributes when styles are off, and never `icon: fa-table` |
| Generator.StyleAttrsContents | js/parser.js:218-222 | the header names the icon exactly when styles are on and the icon is set and not `fa-table`, and the colour exactly when styles are on and it is set |
| Generator.HeaderWithoutStyle | js/parser.js:223-227 | without styles the header is the bare `Table name {` line |
| Generator.Generate | js/parser.js:213-274 | the accumulating loops of `generate` produce the diagram text of the tables |
| Generator.GenerateTable | js/parser.js:217-271 | one pass of the loop appends the table's block |
| Generator.GenerateColumns | js/parser.js:230-254 | the column loop appends one line per column |
| Generator.GenerateIndexes | js/parser.js:257-263 | the index loop appends one line per index |
| Generator.ConstraintKinds | js/parser.js:231-252 | every item written for a column is read back by the parser as the kind it stands for |
| Generator.ConstraintOrder | js/parser.js:231-252 | items come in the order key, not null, unique, default, ref, note, each at most once; not null and unique only on non-key columns; nothing the parser ignores |
| Generator.SqlType | js/parser.js:328-345 | as intended: a synonym of the lower-cased type from the map's own keys, otherwise the type upper-cased; always an upper-case keyword |
| Generator.SqlTypeAgrees | js/parser.js:328-345 | as written and as intended agree on every type other than the inherited keys `constructor` and `__proto__` |
| Generator.SqlTypeConstructor | js/parser.js:344 | as written, a column typed `constructor` gets the source text of a JavaScript function as its SQL type |
| Generator.ConstructorType | js/parser.js:344 | the same for every spelling of `constructor`, in any case |
| Generator.ForeignKeyRel | js/parser.js:303 | `find` gives the first relationship leaving that table and column, and none exactly when no relationship does |
| Generator.ForeignKeyClause | js/parser.js:302-306 | a column definition has a foreign-key clause exactly when a relationship leaves that column, naming the first one's target |
| Generator.ColumnDefParts | js/parser.js:302-306 | with no relationship leaving the column the definition is the base alone; otherwise it is the base followed by a non-empty clause for the one found |
| Generator.ForeignKeyRelFirst | js/parser.js:303 | `relationships.find` returns the first relationship leaving that table and column |
| Generator.PkIndices | js/parser.js:308-310 | the key columns' positions, increasing, and all of them |
| Generator.PrimaryKeyClause | js/parser.js:315-318 | a key clause is added after the definitions exactly when some column is a key, and it lists the key columns in column order |
| Generator.HasKeyIndices | js/parser.js:316 | a table has a key column exactly when the collected key list is non-empty |
| Generator.GenerateSQL | js/parser.js:277-325 | the accumulating loops of `generateSQL` produce the SQL text of the tables |
| Generator.TableDefs | js/parser.js:283-318 | the column loop gives the column definitions and the key clause |
| Generator.ColumnDefinition | js/parser.js:287-306 | one column's definition with the clause of the first relationship leaving it |
| ReadBack.NotIndexesHeader | js/parser.js:41 | a written column line whose name does not start with `indexes` is not skipped as an `Indexes` header |
| ReadBack.NotNoteLine | js/parser.js:44 | a written column line is not taken for a note line |
| ReadBack.ColumnLineRead | js/parser.js:68-101 | the reader takes a written column line back as the recovered column, and as one relationship exactly when the column has a reference |
| ReadBack.ColumnsLines | js/parser.js:37 | splitting the written column lines and trimming the pieces gives the lines without indentation, followed by whatever comes after them |
| ReadBack.BodyOf | js/parser.js:37 | the lines the reader takes from a written body are the column lines and then the note line, when there is a note |
| ReadBack.NoteLineRead | js/parser.js:44-47 | the written note line sets the table's note to the note |
| ReadBack.BodyRead | js/parser.js:37-101 | from a written body the reader gathers the recovered columns, no index and the table's note |
| ReadBack.TableOfWritten | js/parser.js:103-112 | a written header and body give exactly the recovered table |
| ReadBack.BodyAvoids | js/parser.js:230-266 | a written body holds no `/` and no `}` |
| ReadBack.IconFirst | js/parser.js:27-28 | `icon: x` at the start of the attributes reads back as the icon `x` |
| ReadBack.ColourFirst | js/parser.js:29-30 | `color: k` at the start reads back as the colour `k` |
| ReadBack.ColourNoIcon | js/parser.js:27-28 | a colour attribute alone gives no icon |
| ReadBack.IconNoColour | js/parser.js:29-30 | an icon attribute alone gives no colour |
| ReadBack.BothRead | js/parser.js:24-31 | `icon: x, color: k` reads back as both |
| ReadBack.AttrsRead | js/parser.js:218-227 | the reader takes back exactly the icon and the colour the written header carries |
| ReadBack.BlockMatch | js/parser.js:16 | the table pattern matches a written block up to the `}` that closes it |
| ReadBack.ScanBlock | js/parser.js:16-19 | a written block parses to its recovered table, and the search resumes after it |
| ReadBack.DslAvoids | js/parser.js:213-274 | the written text holds no `/`, so comment removal leaves it as it is |
| ReadBack.DslRead | js/parser.js:16-19 | the search over the written text finds each written block, in order |
| ReadBack.GenerateThenParse | js/parser.js:6-116 | reading the text `generate` writes, with or without styles, gives back every table at the origin with its name, note, columns (types normalised, a key column's `not null` dropped, a reference marked `not null`), and icon and colour as far as they were written, and one relationship per referencing column in order |
| Geometry.Clamp | js/geometry.js:13-15 | the result lies in `[lo, hi]` when that range is non-empty, is `v` when `v` is already inside, and is `lo` when the range is empty |
| Geometry.TableDimsPerColumn | js/geometry.js:3-11 | each column adds exactly one 24-unit row to the height and nothing to the width; a table without columns is 46 units tall |
| Geometry.TableCenter | js/geometry.js:17-23 | the centre is the corner plus half the width and half the height |
| Geometry.NormalAxis | js/geometry.js:25-30 | the outward normal of a side is a unit vector along one axis: horizontal for the left and right sides, pointing to growing coordinates for the right and bottom sides |
| Geometry.Tangent | js/geometry.js:32-35 | the tangent of a side is a unit vector perpendicular to its normal |
| Geometry.LabelAnchor | js/geometry.js:37-41 | `end` exactly on the left side, `start` exactly on the right, `middle` otherwise |
| Geometry.AnchorForSide | js/geometry.js:43-71 | the anchor lies on the chosen side of the box; on the left and right at the row height, on the top and bottom inside the 20-unit margins |
| Geometry.RowAnchorY | js/geometry.js:46-51 | the anchor height is the column's row centre when the column exists, clamped between the first row's centre and the bottom of the body |
| Geometry.SpreadAnchorX | js/geometry.js:61-65 | on the top and bottom sides the anchor stays between the two 20-unit margins |
| Geometry.ChooseConnectionSides | js/geometry.js:73-123 | a table related to itself goes right to top; otherwise the two sides always face each other (right/left or bottom/top), in the direction of the offset between the centres |
| Geometry.ChooseConnectionSidesSwap | js/geometry.js:73-123 | seen from the other table, with the centres apart on both axes, the same two sides are chosen, swapped |
| Geometry.SmartConnectionPoints | js/geometry.js:125-138 | the endpoints are the anchors of the two columns on the chosen sides |
| Geometry.OffsetAlongSide | js/geometry.js:140-146 | the point moves by the distance along the side and not across it |
| Geometry.LaneOffsetsCentred | js/geometry.js:148-151 | lanes of one port are centred on it: lane `i` mirrors lane `count-1-i`, neighbours are `step` apart, and a single lane has no offset |
| Geometry.ManhattanDistance | js/geometry.js:162-164 | the distance is non-negative and zero exactly for equal points |
| Geometry.OrthogonalRoute | js/geometry.js:203-268 | the route has five to seven points, leaves the start through its exit point and enters the end through its exit point, and every segment is horizontal or vertical |
| Geometry.MixedRouteTakesCornerA | js/geometry.js:252-260 | with one horizontal and one vertical side both corners cost the same, so the corner on the source's row is always the one taken |
| Geometry.Round2 | js/geometry.js:173-176 | the result has at most two decimals and is within 0.005 of the input |
| Geometry.Collapse | js/geometry.js:187-197 | dropping middle points of straight triples keeps the last point and only points that were there |
| Geometry.CollapseStraightens | js/geometry.js:187-197 | after the `while`, no three consecutive points lie on one vertical or horizontal line |
| Geometry.SimplifiedProperties | js/geometry.js:166-201 | every kept point is the rounding of a finite input point, no three kept points are straight, and the list is no longer than the input |
| Geometry.SimplifyOrthogonalPoints | js/geometry.js:166-201 | the loop returns the simplified list, with the same guarantees |
| Geometry.BuildOrthogonalPolyline | js/geometry.js:203-268 | the polyline is the simplified route: at most seven points, none of three consecutive on one line |
| Geometry.TableRect | js/geometry.js:360-368 | the box grows by the padding on every side |
| Geometry.RectsOverlapSymmetric | js/geometry.js:370-373 | overlap is symmetric |
| Geometry.PushApartMoves | js/geometry.js:396-406 | a push moves only the two positions, by equal and opposite amounts along one axis |
| Geometry.PairStep | js/geometry.js:381-408 | one pair's step keeps the list length, reports whether the pair overlapped, and changes nothing when it did not |
| Geometry.ResolveFrom | js/geometry.js:378-415 | passes go on until one moves nothing, at most 60 |
| Geometry.PassFromPreserves | js/geometry.js:380-412 | a pass changes only positions and keeps the sum of the x and of the y coordinates |
| Geometry.PassFromQuiet | js/geometry.js:380-414 | a pass that moved nothing left every table in place and found no overlapping pair |
| Geometry.ResolveFromProperties | js/geometry.js:375-416 | only positions change, the coordinate sums are kept, at most 60 passes run, and stopping early means no two padded boxes overlap |
| Geometry.QuietPassDone | js/geometry.js:414 | a first pass that moves nothing leaves the tables as they were, with no overlapping pair |
| Geometry.OverlapPass | js/geometry.js:378-412 | the loops of one pass compute the pass function |
| Geometry.PassRow | js/geometry.js:381-410 | the inner loop over `j > i` computes its part of the pass |
| Geometry.PushPair | js/geometry.js:382-407 | the body for one pair pushes it apart exactly when the padded boxes overlap |
| Geometry.ResolveTableOverlaps | js/geometry.js:375-416 | the method on the table list computes the resolution, with the same guarantees |
| Geometry.BoundaryAnchor | js/geometry.js:515-521 | the anchor is the midpoint of the side |
| Geometry.ChooseSideToPoint | js/geometry.js:523-533 | the side faces the point: the dominant axis of the offset from the centre, ties horizontal, zero counted as positive |
| Geometry.TopmostAt | js/geometry.js:535-546 | the last table in list order whose box, edges included, holds the point, or none when no box does |
| Geometry.FindTableAtWorldPoint | js/geometry.js:535-546 | the backward scan finds that table |
| Layout.Incoming | js/geometry.js:423-432 | the tables referencing `n`, each once, all of them tables of the diagram |
| Layout.IncomingReferences | js/geometry.js:428-432 | every table listed as referencing `n` has a relationship to `n` |
| Layout.InRefs | js/geometry.js:422-433 | `refsIn` has one entry per table name, holding its referencing tables |
| Layout.InRefsWithin | js/geometry.js:428-432 | every referencing table in `refsIn` is a table of the diagram |
| Layout.Seeds | js/geometry.js:440-446 | the seeding loop puts only tables that reference nobody on layer 0, and queues them |
| Layout.SeedsRoots | js/geometry.js:440-446 | every table that references nobody is seeded |
| Layout.SeedsNoRoots | js/geometry.js:440-446 | when every table references another, the seeding loop seeds nothing |
| Layout.Seeded | js/geometry.js:440-452 | after seeding and the fallback for cycles the queue is non-empty and every seeded table is on layer 0 and queued |
| Layout.Discover | js/geometry.js:457-463 | the children not yet visited get the next layer and are queued; layers already set never change |
| Layout.Step | js/geometry.js:455-463 | one turn of the walk keeps the walk's invariant and never reassigns a layer |
| Layout.StepDecreases | js/geometry.js:454-464 | each turn visits a new table or shortens the queue, so the walk ends |
| Layout.Run | js/geometry.js:454-464 | the walk keeps its invariant, never reassigns a layer and ends with an empty queue |
| Layout.Finish | js/geometry.js:466-470 | tables the walk did not reach go on layer 0, and afterwards every table has a layer |
| Layout.FinalWalkCovers | js/geometry.js:436-470 | every table gets a layer, and only tables do |
| Layout.FinalWalkRoots | js/geometry.js:440-446 | when some table references no other, every such table is on layer 0 |
| Layout.FinalWalkFallback | js/geometry.js:447-452 | when every table references another, the first table is on layer 0 |
| Layout.FinalWalkParented | js/geometry.js:454-464 | every table on a later layer is exactly one layer right of a table it references |
| Layout.IncomingContains | js/geometry.js:428-433 | the source of every relationship between two tables is listed among the tables referencing its target |
| Layout.DiscoverAppends | js/geometry.js:457-463 | the inner loop appends the tables it visits to the end of the queue |
| Layout.AddedLayers | js/geometry.js:457-463 | the tables the inner loop queues are exactly the newly visited ones, all on the next layer |
| Layout.DequeuedQueue | js/geometry.js:455-463 | after one turn the queue is the old tail followed by the newly visited tables, all one layer right of the dequeued table |
| Layout.DequeuedSpan | js/geometry.js:455-463 | after one turn every queued table is on the dequeued table's layer or the next, the new ones on the next |
| Layout.DequeuedOrdered | js/geometry.js:455-463 | one turn keeps the queue's layers non-decreasing and within one layer of each other |
| Layout.DequeuedHead | js/geometry.js:455-463 | one turn keeps every visited table at most one layer beyond the head of the queue |
| Layout.DequeuedClosed | js/geometry.js:455-463 | once a table leaves the queue, every table referencing it is visited, at most one layer further right |
| Layout.DequeuedBfs | js/geometry.js:455-463 | one turn keeps the breadth-first invariant: ordered queue, bounded layers, dequeued tables closed |
| Layout.StepBfs | js/geometry.js:455-463 | the same for the walk's own step |
| Layout.RunBfs | js/geometry.js:454-464 | the whole `while` loop keeps the breadth-first invariant |
| Layout.Walked | js/geometry.js:436-464 | the disconnected-tables loop keeps every layer the walk set and puts the rest on layer 0 |
| Layout.Reached | js/geometry.js:436-464 | the tables the walk reaches are tables and keep a layer |
| Layout.WalkedClosed | js/geometry.js:454-464 | when the queue is empty, every table referencing a reached table is reached, at most one layer further right |
| Layout.WalkedParented | js/geometry.js:454-464 | every reached table on a later layer is one layer right of a reached table it references |
| Layout.ClosedEdge | js/geometry.js:454-464 | in a finished walk, a relationship into a reached table comes from a reached table at most one layer further right |
| Layout.FinalWalkReachedEdge | js/geometry.js:454-470 | for every relationship between two tables whose target is reached, the source is reached and its layer is at most the target's plus one |
| Layout.ParentedReached | js/geometry.js:454-470 | a table on a later layer is reached, one layer right of a reached table it references |
| Layout.FinalWalkReachedParent | js/geometry.js:454-470 | the same for the layers `autoLayoutTables` computes |
| Layout.FinalWalkFirstDiscovery | js/geometry.js:454-464 | a table on a later layer is reached, and its layer is one more than the smallest layer of the reached tables it references: first discovery, not the longest path (comments referencing posts and users lands on layer 1) |
| Layout.GroupOfMembers | js/geometry.js:473-477 | a layer's group holds exactly the names on that layer, in the insertion order of `layers`, each once |
| Layout.PlaceFromMovesOnly | js/geometry.js:498-502 | placing changes only positions |
| Layout.SamePositionsKeepsTables | js/geometry.js:488-489 | moving tables changes neither which table a name finds nor any size |
| Layout.PlaceFromPosition | js/geometry.js:495-502 | each table of a group goes to the column and below the heights and gaps of the tables before it |
| Layout.LayerCentred | js/geometry.js:485-495 | a placed layer starts at minus half its total height and its last table ends at plus half |
| Layout.PlaceLayersPosition | js/geometry.js:483-503 | the table of a name is placed by its own layer only, in column `layer * 500` |
| Layout.ShadowedNeverFound | js/geometry.js:488 | `find` returns the first match, so a later table with a repeated name is never found |
| Layout.AutoLayoutMovesOnly | js/geometry.js:418-504 | auto-layout changes nothing but positions |
| Layout.AutoLayoutPositions | js/geometry.js:418-504 | the first table with each name goes to column `layer * 500`, stacked 80 units apart in its layer's insertion order, the layer centred on y = 0 |
| Layout.AutoLayoutDuplicates | js/geometry.js:488-502 | a table whose name an earlier table has keeps its position |
| Layout.BuildRefs | js/geometry.js:422-433 | the loops build both maps: outgoing sets and, in insertion order, incoming lists |
| Layout.SeedWalk | js/geometry.js:440-452 | the seeding loop and the fallback compute the seeded walk |
| Layout.DiscoverChildren | js/geometry.js:457-463 | the inner loop computes the discovery |
| Layout.RunWalk | js/geometry.js:454-464 | the walk loop computes the walk |
| Layout.FinishWalk | js/geometry.js:466-470 | the last loop puts the unreached tables on layer 0 |
| Layout.GroupByLayer | js/geometry.js:473-481 | the grouping loop gives each layer its names in insertion order, and the largest layer |
| Layout.LayerHeight | js/geometry.js:485-493 | `totalHeight` sums the heights and the gaps between them |
| Layout.StackLayer | js/geometry.js:495-502 | the tables of a group are stacked from the start height down |
| Layout.PlaceAll | js/geometry.js:483-503 | the loop over the layers in ascending order places every layer |
| Layout.AutoLayoutTables | js/geometry.js:418-504 | the method computes the auto-layout function |
| Router.SideNameLetters | js/render-relationships.js:27-28 | a side's name, the last part of a port key, holds no `:` |
| Router.PortKeyTail | js/render-relationships.js:27-28 | the end of a port key tells its side |
| Router.PortKeySidesDiffer | js/render-relationships.js:27-28 | keys of different sides never coincide, whatever the names |
| Router.PortKeyInjective | js/render-relationships.js:27-28 | with no `:` in the names, a key determines its port |
| Router.PortKeySplit | js/render-relationships.js:27-28 | with no `:` in the names, a key splits at `:` back into table, column and side |
| Router.PortKeysCanCollide | js/render-relationships.js:27-28 | once a name holds `:`, two different ports share one key, and with it one lane counter |
| Router.RouteOf | js/render-relationships.js:12-47 | a relationship is skipped exactly when a table or a column is not found by name; otherwise its route joins the first table and column of each name, at the connection points chosen for them, with their two port keys |
| Router.RouteKeysDiffer | js/render-relationships.js:23-28 | the two port keys of a route always differ, since its two ends take different sides |
| Router.RoutesResolved | js/render-relationships.js:12-48 | exactly the relationships that resolve are routed, in order |
| Router.RouteRelationships | js/render-relationships.js:9-48 | the first pass gives the routes and, for every port key, the number of route ends at it |
| Router.RouteOne | js/render-relationships.js:13-47 | one round routes the relationship if it resolves and counts both its ports |
| Router.LaneIndexBelowCount | js/render-relationships.js:57-64 | a route's lane at a port lies below the port's count |
| Router.LaneIndexIncreasing | js/render-relationships.js:60-64 | of two routes at one port the later one gets the higher lane |
| Router.LanesDistinct | js/render-relationships.js:60-64 | no two routes share a lane at one port |
| Router.LanesCovered | js/render-relationships.js:60-64 | every lane below a port's count is taken by some route |
| Router.RoutesWellFormed | js/render-relationships.js:12-48 | every route names columns that exist in its tables |
| Router.LaneCount | js/render-relationships.js:57-58 | a count read with `|| 1` is at least 1, and the stored count when that is positive |
| Router.Cardinality | js/render-relationships.js:223-228 | the label splits at `:` into the source end's label and the target end's |
| Router.CardinalityParts | js/render-relationships.js:223-228 | the first part starts with `0..` exactly when the source column is nullable and not a key and ends in `1` exactly when the source end is "one"; the second is `1` exactly when the target end is "one", `N` otherwise |
| Router.OptionalVersusPrefix | js/render-relationships.js:223-228 | the dashed line (an optional relationship, line 107) and the `0..` prefix disagree on one case only: a nullable key source column is drawn dashed but labelled without `0..` |
| Router.AssignLanes | js/render-relationships.js:53-106 | the second pass gives each route the path built from its lanes, in route order |
| Router.AssignLane | js/render-relationships.js:53-106 | one round builds the route's path from the counters as they stand and advances both ends' counters |
| Router.LaneStepPath | js/render-relationships.js:60-106 | the path built in a round is the one the route's lanes determine |
| Router.PathAtLanes | js/render-relationships.js:57-106 | a route's path depends only on the uses of its ports before it and in all |
| Router.UsageStep | js/render-relationships.js:63-64 | advancing the usage counters of a route's ports counts that route's ends |
| Router.BuildPath | js/render-relationships.js:66-106 | one route's path, built with the polyline method |
| Router.RenderRelationships | js/render-relationships.js:3-106 | both passes: one path per routed relationship, each the path its lanes determine |
| Router.PortOffsets | js/geometry.js:148-151 | with `n` ends at a port, lanes `k` and `n-1-k` have opposite offsets, and a lone lane has none |
| Router.PortLanes | js/render-relationships.js:57-67 | at a port used by `n` ends the lanes are exactly 0 .. n-1, one end each, with centred offsets |
| Router.EndGap | js/render-relationships.js:71-95 | an anchor moved along its side and then out by the gap lies exactly `markerGap` outside that side of the table |
| Router.PathEndpoints | js/render-relationships.js:71-95 | a path starts `markerGap` outside the source side, shifted along it by the lane offset, and dually at the target |
| Router.DraftTarget | js/render-relationships.js:249-251 | the draft's target table found by name, and none for an empty or unknown name |
| Router.DraftPreview | js/render-relationships.js:244-281 | the preview exists exactly when the draft's source table is found |
| Router.DraftPreviewFacesBack | js/render-relationships.js:256-281 | a free end faces back along the drag's dominant axis; over a table the side entered faces the source point; the ends stand 18 and 12 out from their sides |
| Router.RenderDraft | js/render-relationships.js:244-281 | the preview the draft gives |
| Session.Context.constructor | js/state.js:4-20 | the page starts with no tables, relationships or selection, zoom 1 and no pan, nothing dragged, drafted or open, and styles shown |
| Session.Context.UpdateSqlFromState | js/app.js:375-379 | only the editor text changes, to the diagram text of the tables written with the current style flag |
| Html.EscapedChars | js/ui.js:35-37 | the escaped text holds no raw `<` or `>`, and no raw `"` under the quote rule |
| Html.EscIsSinglePass | js/ui.js:35-37 | replacing `&` first means no entity a later replacement writes is escaped again: the chain of `replace` calls is one left-to-right pass |
| Html.EscapeHtmlIsSinglePass | js/dragdrop.js:134-136 | the same for `escapeHtml`, with `"` as well |
| Html.EscapedCharsRoundTrip | js/ui.js:35-37 | escaping loses nothing: the entities read back to the original text |
| Html.EscSafe | js/ui.js:35-37 | `esc` output has no raw `<` or `>` and reads back to its input |
| Html.EscapeHtmlSafe | js/dragdrop.js:134-136 | `escapeHtml` output has no raw `<`, `>` or `"` and reads back to its input |
| Html.AttrValueRead | js/modals.js:124 | an input written with an unescaped `value="…"` reads back the part of the value before its first `"`, all of it when there is none |
| DragDrop.Base36 | js/dragdrop.js:37 | the id is a non-empty run of base-36 digits |
| DragDrop.Base36RoundTrip | js/dragdrop.js:37 | reading the id's digits back gives the clock reading |
| DragDrop.Base36Injective | js/dragdrop.js:37 | entries saved at different instants get different ids |
| DragDrop.SavedIcons | js/dragdrop.js:28-33 | only icons that are set and not `fa-table` are stored, and never under `__proto__` |
| DragDrop.SavedIconsAreLast | js/dragdrop.js:30-33 | a name other than `__proto__` is stored exactly when a table of that name has a custom icon, and it stores the icon of the last such table; `__proto__` is never stored, as a plain object drops that key |
| DragDrop.SavedColoursCarried | js/dragdrop.js:30-33 | the stored colours are the colours a parse carries over, less the `__proto__` entry the plain object drops |
| DragDrop.SavedColoursAreSet | js/dragdrop.js:30-33 | a name other than `__proto__` is stored exactly when some table of that name has its colour set, with the colour of the last such table |
| DragDrop.ProtoTableSavesNoStyle | js/dragdrop.js:31-32 | a table named `__proto__` is saved with neither its icon nor its colour |
| DragDrop.CollectStyles | js/dragdrop.js:28-33 | the loop fills both objects, skipping `__proto__` |
| DragDrop.SchemaName | js/dragdrop.js:24-25 | the trimmed name field, or `Untitled Schema` when it is missing or blank; never empty |
| DragDrop.FirstSchemaNamed | js/dragdrop.js:48 | the first entry of that name, and none exactly when no entry has it |
| DragDrop.OtherNames | js/dragdrop.js:48-53 | exactly the entries of another name, in store order |
| DragDrop.UpsertedContents | js/dragdrop.js:48-53 | saving leaves every entry of another name where it was, and the first entry of the name then holds what was saved |
| DragDrop.UpsertedNames | js/dragdrop.js:48-53 | saving adds the name to the store's names, and no other |
| DragDrop.UpsertedKeepsNamesDistinct | js/dragdrop.js:48-53 | saving keeps the store's names distinct |
| DragDrop.UpsertedIds | js/dragdrop.js:48-53 | a replacement keeps the store's ids; a new entry adds its own |
| DragDrop.SavedCurrent | js/dragdrop.js:17-56 | nothing is saved exactly when the trimmed editor text is empty or there is no table |
| DragDrop.SaveCurrentSchema | js/dragdrop.js:17-56 | the method returns the store the save computes |
| DragDrop.SchemasWithout | js/dragdrop.js:75-76 | exactly the entries with another id, never more |
| DragDrop.SchemasWithoutConcat | js/dragdrop.js:76 | the filter keeps order and works piece by piece |
| DragDrop.SchemasWithoutAbsent | js/dragdrop.js:76 | deleting an id no entry has leaves the store as it is |
| DragDrop.DeleteUndoesNewSave | js/dragdrop.js:48-76 | saving a new name under a fresh id and then deleting that id gives back the store |
| DragDrop.LoadRestoresStyles | js/dragdrop.js:60-73 | loading an entry gives each parsed table whose name had a custom icon that icon, and each parsed table without a colour the saved colour of its name; a name with nothing saved, `__proto__` among them, gets the style of the last current table of that name, else keeps its own |
| DragDrop.LoadWithoutTables | js/dragdrop.js:60-73 | text without a table loads nothing, and its icons and colours stay pending for the next parse |
| DragDrop.LoadSchema | js/dragdrop.js:60-73 | the method gives the loaded state |
| DragDrop.TimeAgo | js/dragdrop.js:122-132 | the bucket: just now under a minute (and for a time in the future), then whole minutes below 60, whole hours below 24, whole days below 30, then the date |
| DragDrop.AgoTextCount | js/dragdrop.js:126-130 | a label ends in its unit and ` ago`, and its digits read back as the count |
| DragDrop.ItemName | js/dragdrop.js:101 | the name shown cannot open a tag or close an attribute, and reads back to the stored name |
| Editor.SplitCount | js/ui.js:6 | `split('\n')` yields one more piece than there are line breaks |
| Editor.SplitJoin | js/ui.js:7 | joining pieces free of the separator and splitting again gives the pieces back |
| Editor.GutterLines | js/ui.js:4-11 | the gutter has one line per line break plus one, and its line `i` reads as the number `i + 1` |
| Editor.FirstClose | js/ui.js:252-264 | the first position at or after `k` that closes the definition's braces, and none exactly when no position does |
| Editor.BraceScan | js/ui.js:249-264 | the brace loop ends one past the first `}` that brings the depth back to zero after a `{`, or at the start when there is none |
| Editor.LineRangeCounts | js/ui.js:267-270 | the range runs from the line holding the start to the line holding the table's last character: each bound counts the line breaks before it |
| Editor.WrapRange | js/ui.js:304-306 | the loop wraps exactly the lines from `startLine` to `endLine` that exist |
| Editor.ApplyHighlightRange | js/ui.js:292-313 | line for line the new markup is the old, with exactly the lines of the range wrapped |
| Editor.MarkTable | js/ui.js:249-282 | once the definition is found, the lines from the one holding it to the one holding its closing brace are wrapped, and no other |
| Editor.EscapeRegex | js/ui.js:285-287 | escaping never shortens the name |
| Editor.EscapeRegexIsLiteral | js/ui.js:285-287 | the escaped name is a literal pattern that matches exactly the name |
| Editor.EscapeRegexPlain | js/ui.js:285-287 | a name without metacharacters is left as it is |
| Relationships.FirstPk | js/relationships.js:5 | the position of the first key column, and none exactly when no column is a key |
| Relationships.FirstId | js/relationships.js:6 | the position of the first column called `id` in any case, and none exactly when there is none |
| Relationships.ReferenceColumn | js/relationships.js:3-10 | the first key column when there is one, else the first `id` column, else the first column; nothing exactly when the table has no columns |
| Relationships.MapNameChars | js/relationships.js:15 | every character outside `[a-z0-9_]` becomes `_`, the length is kept |
| Relationships.CollapseUnderscores | js/relationships.js:16 | no two `_` in a row remain, the first character stays, and a text without `__` is unchanged |
| Relationships.DropLeadingUnderscores | js/relationships.js:17 | the result is a suffix not starting with `_`, and a text not starting with `_` is unchanged |
| Relationships.DropTrailingUnderscores | js/relationships.js:17 | the result is a prefix not ending with `_`, and a text not ending with `_` is unchanged |
| Relationships.StrippedShape | js/relationships.js:13-17 | the three replacements leave only `[a-z0-9_]`, no `__`, and no `_` at either end |
| Relationships.SanitizeColumnName | js/relationships.js:12-20 | the result is a sanitized name: non-empty, only `[a-z0-9_]`, no `__`, no `_` at either end (`fk_id` when nothing is left) |
| Relationships.SanitizeFixedPoints | js/relationships.js:12-20 | a name is returned unchanged exactly when it is already sanitized |
| Relationships.SanitizeIdempotent | js/relationships.js:12-20 | sanitizing twice is sanitizing once |
| Relationships.SuggestForeignKeyColumnName | js/relationships.js:60-62 | the suggestion is always a sanitized name |
| Relationships.SuggestKeepsSanitized | js/relationships.js:60-62 | with sanitized table and column names the suggestion is `table_column` as it stands |
| Relationships.CandidatesDistinct | js/relationships.js:29-32 | different candidates differ even ignoring case, so the loop cannot revisit one |
| Relationships.GetUniqueColumnName | js/relationships.js:22-35 | the loop returns the first candidate (`base`, `base_2`, `base_3`, ...) no column has, ignoring case, and the result clashes with no column |
| Relationships.RenamedReferences | js/relationships.js:37-46 | one table per table, each with only its columns changed |
| Relationships.RenameReferencesExactly | js/relationships.js:37-46 | renaming changes exactly the columns referencing the old name: they reference the new one and are foreign keys; every other column and field stays |
| Relationships.RemovedReferences | js/relationships.js:48-58 | one table per table, each with only its columns changed |
| Relationships.RemoveReferencesExactly | js/relationships.js:48-58 | removing changes exactly the columns referencing the table: they lose key flag and target; afterwards no column references it |
| Relationships.RenameRefsInColumns | js/relationships.js:39-44 | the inner loop computes the renamed columns |
| Relationships.RemoveRefsInColumns | js/relationships.js:50-56 | the inner loop computes the cleared columns |
| Relationships.RenameRefsInTables | js/relationships.js:38-45 | the outer loop computes the renamed tables |
| Relationships.RemoveRefsInTables | js/relationships.js:49-57 | the outer loop computes the cleared tables |
| Relationships.RenameTableReferences | js/relationships.js:37-46 | on the page state only the tables change, as the renaming function says |
| Relationships.RemoveTableReferencesTo | js/relationships.js:48-58 | on the page state only the tables change, as the removing function says |
| Relationships.PlanRelationship | js/relationships.js:64-109 | the checks in order: a table to itself, a missing table, no column to reference, a duplicate relationship; a plan names the first source table, the chosen target column and the sanitized typed name or the suggestion |
| Relationships.PlanPicks | js/relationships.js:94-97 | when every check passes, the planned name is the sanitized trimmed input or, for empty input, the suggestion |
| Relationships.AppendColumnKeepsConsistent | js/relationships.js:112 | appending a column with a new name keeps every relationship backed by a foreign-key column |
| Relationships.ConnectKeepsConsistent | js/relationships.js:112-130 | creating a relationship adds exactly one relationship, backed by the new column, and keeps every old one backed |
| Relationships.CreateRelationshipBetweenTables | js/relationships.js:64-137 | a refusal changes nothing; success appends the column with the first free candidate name and the relationship, regenerates the text, and reports the name |
| Relationships.AddForeignKey | js/relationships.js:112-132 | the two pushes and the text update, and nothing else |
| Relationships.CloseRelationEditor | js/relationships.js:138-150 | the popover closes and nothing else changes |
| Relationships.OpenedCreate | js/relationships.js:152-161 | any popover closes first; a new one opens exactly when both tables exist and the referenced one has columns; nothing else changes |
| Relationships.OpenRelationEditor | js/relationships.js:152-161 | the method gives that state |
| Relationships.SubmitCreateEditor | js/relationships.js:235-246 | the create button creates the relationship as planned and closes the popover exactly on success |
| Relationships.OpenedEdit | js/relationships.js:282-291 | the edit popover opens exactly when both tables and the relationship's column exist, bound to the first table and first column of those names; nothing else changes |
| Relationships.OpenEditRelationEditor | js/relationships.js:282-291 | the method gives that state |
| Relationships.ColumnsWithout | js/relationships.js:354 | the filter keeps no column of the deleted name and never lengthens the list |
| Relationships.FindColumnWithout | js/relationships.js:354 | filtering out one name does not change which column another name finds |
| Relationships.RemoveAt | js/relationships.js:356 | the relationship at that position leaves the list, the others stay in order |
| Relationships.DeleteEdited | js/relationships.js:352-361 | without an edit popover nothing changes |
| Relationships.DeleteEditedKeepsConsistent | js/relationships.js:352-361 | deleting through the popover removes one relationship, closes the popover and keeps every other relationship backed when it was the only one from its column |
| Relationships.DeleteEditedRelationship | js/relationships.js:352-361 | the method gives that state |
| Relationships.CommitEdit | js/relationships.js:389-391 | the stored tables and relationships, the popover closed and the text regenerated, and nothing else |
| Relationships.SaveEditAsWrittenDuplicates | js/relationships.js:375-384 | as written, the save gives the table two columns of one name whenever the sanitized typed name is another column's name but the typed name itself is not |
| Relationships.ClashExample | js/relationships.js:375-384 | an instance: columns `user_id` and `author`, popover on `author`, typed `User Id`: the test passes and the save stores `user_id` a second time |
| Relationships.SaveEdit | js/relationships.js:363-394 | corrected: the same steps with the duplicate test made on the name that is stored; a blank name changes nothing |
| Relationships.SaveEditStores | js/relationships.js:363-394 | a clash on the stored name changes nothing; otherwise the column and its relationship take the same sanitized name and the same target, the kind and requiredness are set, and the popover closes |
| Relationships.SavedEditStores | js/relationships.js:383-392 | once the checks pass, the column gets the sanitized name, the kind, the requiredness and the chosen target; the relationship takes the same column name and target and keeps its tables; the popover closes; no table, relationship or column is added or removed |
| Relationships.SaveEditKeepsConsistent | js/relationships.js:384-391 | a save keeps every relationship backed by its column, when the edited relationship is the only one from its column |
| Relationships.EditedColumnKeepsConsistent | js/relationships.js:384-391 | moving a backed relationship with its column to a name no column of another name has, and to a new target, keeps every relationship backed |
| Relationships.SaveEditKeepsNamesDistinct | js/relationships.js:363-394 | with the corrected test, saving keeps the edited table's column names distinct, ignoring case |
| Relationships.SaveEditedRelationship | js/relationships.js:363-394 | the save button on the page state, with the corrected duplicate test |
| Relationships.CancelConnectionDraft | js/relationships.js:434-439 | the draft is dropped and nothing else changes |
| Relationships.StartedDraft | js/relationships.js:441-516 | only the main button starts a draft; any draft and popover are dropped, while the listeners of a dropped draft stay registered; the draft starts at the anchor of the side facing the pointer, with no target, and its listeners are registered after the others |
| Relationships.StartConnectionFromTable | js/relationships.js:441-516 | the method gives that state |
| Relationships.DropTarget | js/relationships.js:471-474 | the table under the pointer, when it is another table than the draft's source |
| Relationships.MovedDraft | js/relationships.js:468-477 | every registered move listener runs; another pointer changes nothing; the owner's move updates the draft's point, and its target as the newest listener sees it, and nothing else |
| Relationships.StartedMoveOwnTarget | js/relationships.js:441-477 | the newest listeners are the draft's own, so a move after a start notes the target as seen from the draft's source table |
| Relationships.DraftPointerMove | js/relationships.js:468-477 | the method gives that state |
| Relationships.FinishedDraftOutcome | js/relationships.js:479-516 | another pointer, or no listener, changes nothing; otherwise the oldest registered listener finishes the draft: the draft and that listener are gone, and a popover is open only after a release over another table than that listener's source, proposing a foreign key in that table to that source |
| Relationships.DraftPointerUp | js/relationships.js:479-516 | the method gives that state |
| Relationships.StaleListenerFinishes | js/relationships.js:434-516 | Findings row 3 as written: a draft from `a` cancelled, then a draft from `b` by the same pointer released over a third table `c`, opens the popover for a key in `c` to `a` |
| Relationships.StaleListenerOverOwnTable | js/relationships.js:434-516 | the same sequence released over `b` opens the popover for a key in `b` to `a`, where the intended release opens nothing |
| Relationships.FinishedOwnDraftOutcome | js/relationships.js:479-508 | the intended release (Findings row 3): the draft is finished with its own source table and no listener is left; a popover opens only over another table than that source, proposing a key in that table to it |
| Relationships.CancelDraftReleasing | js/relationships.js:434-439 | the corrected cancel leaves no draft and no listener, and nothing else changes |
| Relationships.OwnListenerKept | js/relationships.js:441-516 | when every cancel removes the listeners, a start, a move and a release all leave each draft with only its own listeners |
| Relationships.OwnListenerFinishes | js/relationships.js:479-508 | with only the draft's own listeners registered, the page's release is the intended one |
| Tables.TablesWithout | js/tables.js:369 | no table of that name is left, and exactly the other tables stay |
| Tables.RelsAvoiding | js/tables.js:370 | exactly the relationships neither from nor to the table stay |
| Tables.NamesWithout | js/tables.js:372 | exactly the other selected names stay |
| Tables.FindTableWithout | js/tables.js:369 | filtering out one name leaves the table another name finds as it was |
| Tables.DeleteTableRemovesAll | js/tables.js:360-376 | after deleting nothing is named, related to, selected as or referencing the table, while the other tables, relationships and selected names stay |
| Tables.DeletedTableFields | js/tables.js:361-373 | each field `deleteTable` changes, one by one |
| Tables.DeleteTableKeepsConsistent | js/tables.js:369-371 | deleting keeps every remaining relationship backed by its foreign-key column |
| Tables.DeleteTable | js/tables.js:360-376 | the method gives the deleted state |
| Tables.DropTable | js/tables.js:369-372 | the four filtering steps, and nothing else |
| Tables.Position | js/tables.js:344 | `indexOf` gives the first position holding the name, and none exactly when it is absent |
| Tables.RemoveAtDistinct | js/tables.js:346 | splicing one entry out of a list without repeats removes exactly that name |
| Tables.SelectionToggles | js/tables.js:342-351 | with the modifier only the named table's membership flips, and a list without repeats stays without repeats |
| Tables.SelectTable | js/tables.js:342-351 | on the page state only the selection changes, as the toggle function says |
| Tables.RenameRelTables | js/tables.js:195-199 | the relationship `map` renames the old name at both ends of every relationship |
| Tables.BlurEmptyKeepsName | js/tables.js:189 | an empty input keeps the old name and only the text is regenerated |
| Tables.BlurRewritesReferences | js/tables.js:186-202 | after a real rename no relationship or column mentions the old name, and each that did mentions the new one |
| Tables.BlurKeepsConsistent | js/tables.js:186-202 | renaming the first table of its name to an unused name keeps every relationship backed |
| Tables.BlurSameName | js/tables.js:186-202 | a blur that keeps the name changes neither tables nor relationships |
| Tables.RenameOnBlur | js/tables.js:186-202 | the method gives the renamed state, for any value the input holds |
| Tables.UntouchedBlur | js/tables.js:145-202 | a blur without an edit reads the name back through the unescaped `value` attribute: a name without `"` or surrounding spaces stays and nothing changes; a name with `"` is kept exactly when the part before its first `"` is blank, and is otherwise renamed to that part, trimmed, with no `"` |
| Tables.UntouchedBlurQuoted | js/tables.js:145-202 | the instances: `a"b` becomes `a`, and the relationships that left from it leave from `a`; `"c` keeps its name |
| Tables.GroupOriginsExact | js/tables.js:255-262 | the recorded names are distinct, each is paired with the position of its first table, and they are exactly the selected names that find a table, except `__proto__`, which the plain object does not keep |
| Tables.GroupOriginAt | js/tables.js:258-261 | each recorded origin is the position of its name's first table |
| Tables.CollectGroupOrigins | js/tables.js:258-261 | the loop computes the recorded origins, skipping `__proto__` |
| Tables.DragStarted | js/tables.js:250-281 | only the main button off the controls starts that card's drag, recording the pointer, the press point, the table's position and, inside a selection of several, the group's origins; the dragging flag names the table; other cards' drags stay as they were |
| Tables.OnHeaderPointerDown | js/tables.js:250-281 | the method gives that state |
| Tables.MoveGroup | js/tables.js:290-302 | the group move changes only positions |
| Tables.MoveGroupKeepsOthers | js/tables.js:290-302 | a table no recorded name finds first stays where it was |
| Tables.MoveGroupMovesListed | js/tables.js:290-302 | for any list of distinct recorded names, each recorded name's first table ends at its origin plus the offset |
| Tables.GroupDragExact | js/tables.js:256-297 | a group drag moves by the offset exactly the first table of each selected name other than `__proto__`; every other table, a selected `__proto__` among them, stays put |
| Tables.MoveGroupInPlace | js/tables.js:290-302 | the loop computes the group move |
| Tables.DragMoved | js/tables.js:283-311 | a move on a card changes only the positions of the tables |
| Tables.SingleDragMoves | js/tables.js:283-307 | on a card whose drag belongs to the pointer while the dragging flag names its table, a single drag puts the table at its origin plus the pointer's motion divided by the zoom, and leaves every other table alone |
| Tables.OnHeaderPointerMove | js/tables.js:283-311 | the method gives that state |
| Tables.DragStopOnlyMoves | js/tables.js:234-248 | a release on a card whose drag belongs to the pointer ends that card's drag only, clears the dragging flag and only moves tables, keeping the sums of their coordinates, with no overlap left when the resolution settled; otherwise nothing changes |
| Tables.StopTableDrag | js/tables.js:234-248 | the method gives that state |
| Tables.ReleaseStopsOtherDrags | js/tables.js:234-285 | with two cards dragged by two pointers, the release of one clears the single dragging flag, so the other card's drag moves nothing any more |
| Tables.SecondPressTakesOver | js/tables.js:250-285 | a press on a second card takes the dragging flag over: the first card's drag stays recorded but moves nothing |
| Tables.RebuildStrandsDrag | js/tables.js:37-41 | building the cards again mid-drag drops every card's drag while the dragging flag stays set, so no pointer moves or releases a table, and a press on the canvas neither pans nor starts a marquee |
| Tables.WithWidths | js/tables.js:64-69 | each table records its card's measured width and nothing else |
| Tables.RenderOnlyPlaces | js/tables.js:37-83 | rendering drops every card's drag, only moves tables and records widths; the view moves only after a fresh layout, and then the zoom is at most 1 |
| Tables.ZoomStaysInRange | js/viewport.js:20 | the page starts at zoom 1, and zooming, fitting and rendering, the only steps that set the zoom, keep it in [0.25, 2] |
| Tables.RenderTables | js/tables.js:37-83 | the method gives the rendered state |
| Tables.PlaceCards | js/tables.js:43-78 | the steps after the old cards are removed give the rendered state |
| App.LastStyled | js/app.js:340-343 | the last position holding a table of that name whose style is set, and none exactly when no such table has it |
| App.CarriedIsLast | js/app.js:338-343 | a name is carried exactly when some current table of that name has its style set, and it carries the style of the last such table |
| App.CollectCarried | js/app.js:340-343 | the loop over the current tables fills the map with the carried styles |
| App.RestyledAll | js/app.js:356-359 | one table per parsed table, each restyled on its own |
| App.RestyleTables | js/app.js:356-359 | the last loop restyles every parsed table |
| App.RunParserReplaces | js/app.js:328-366 | text without a table leaves the page as it was; otherwise the model becomes the parse, table for table, with only icons and colours changed, and the draft, the popover and the pending styles are gone |
| App.RunParserIcon | js/app.js:338-358 | a parsed table's icon is the pending one for its name, else that of the last current table of that name that has one, else its own |
| App.RunParserColour | js/app.js:338-359 | a parsed table keeps its own colour; one without takes the pending colour for its name, else that of the last current table of that name that has one |
| App.KeepStyles | js/app.js:337-359 | the styling half builds both maps and lays them over the parsed tables |
| App.LoadParsed | js/app.js:361-364 | the stored parse, pending styles consumed, draft cancelled and popover closed, and nothing else |
| App.RunParser | js/app.js:328-372 | the method gives the state of the parser run |
| App.ClearThenRunKeepsEmpty | js/app.js:77-87 | clearing gives a consistent empty model, and running the parser right after changes nothing |
| App.Clear | js/app.js:77-87 | the method gives the cleared state |
| App.DeletedTableNames | js/tables.js:369-371 | deleting a table removes exactly its name from the table names |
| App.DeletedAllRemoves | js/app.js:141-146 | deleting a list of names removes exactly those names from the tables and the selection and keeps the relationships backed |
| App.DeleteKeyClearsSelection | js/app.js:141-146 | the Delete key removes every selected table, empties the selection and keeps the relationships backed |
| App.DeleteSelected | js/app.js:141-146 | the loop over a copy of the selection deletes each name in turn |
| App.EscapeCloses | js/app.js:151-165 | Escape closes the first open thing of the image modal, the draft, the popover and the table modal, opens nothing and leaves the model alone |
| App.EscapeFourTimes | js/app.js:151-165 | four presses close everything |
| App.OnEscape | js/app.js:151-165 | the method gives the state of one press |
| App.OnKeyDown | js/app.js:140-166 | the handler composes the Delete, Ctrl-S and Escape cases in that order |
| App.NextTheme | js/app.js:20-23 | the next theme is `dark` exactly when the current one, `light` when unset, is not `dark` |
| App.ThemeToggleInvolution | js/app.js:20-23 | toggling twice returns to either theme |
| App.ToggleTheme | js/app.js:20-23 | only the theme changes |
| App.StyleToggleTwice | js/app.js:116-120 | one press writes the text with the flag flipped; two presses restore the flag and leave the text generated with it |
| App.ToggleStyle | js/app.js:116-120 | the method gives the toggled state |
| Modals.IconSwatch | js/modals.js:26-44 | a swatch is marked selected exactly when the requested icon is in the palette, and it is that icon |
| Modals.ColourSwatch | js/modals.js:56-80 | a swatch is marked selected exactly when the requested colour, or none, is in the palette; the "no colour" swatch carries the empty value |
| Modals.IconChoice | js/modals.js:46-49 | the picked icon, `fa-table` when none is picked |
| Modals.ColourChoice | js/modals.js:82-85 | the picked colour, none exactly when nothing or the empty swatch is picked |
| Modals.UntouchedPickers | js/modals.js:99-113 | an untouched edit keeps the table's icon and colour only when they are palette entries; any other icon becomes `fa-table` and any other colour is dropped |
| Modals.UntouchedPickersDropCustomStyle | js/modals.js:99-113 | an instance: a parsed table coloured `#FF0000` with icon `fa-rocket` comes out with `fa-table` and no colour |
| Modals.AddPickers | js/modals.js:87-97 | the add modal selects `fa-table` and "no colour", so an untouched add gives those |
| Modals.TypeOption | js/modals.js:116-120 | a row's type select shows an option, and shows the column's own type exactly when that type is one of the options |
| Modals.EditFields | js/modals.js:105-107 | one row per column of the edited table, in order, each showing what its name input reads back |
| Modals.UntouchedRows | js/modals.js:105-107 | an untouched edit gives back one plain column per column whose name before its first `"` is not blank: the name becomes that part trimmed (so a trimmed name without `"` stays), the key stays, `notNull` becomes the key flag, a type that is not an option becomes `int`, everything else is dropped |
| Modals.UntouchedQuotedNames | js/modals.js:124 | a column `a"b` comes back as `a`, and a column `"c` is lost |
| Modals.CollectedColumns | js/modals.js:159-167 | the kept rows become columns with a non-blank name, `notNull` equal to the key flag and no foreign key |
| Modals.CollectedKeepsRow | js/modals.js:164-166 | every row with a non-blank trimmed name yields its column |
| Modals.CollectedSource | js/modals.js:164-166 | every collected column comes from a row with a non-blank trimmed name |
| Modals.CollectedNoneWhenBlank | js/modals.js:169-172 | no column is collected exactly when every row's name is blank |
| Modals.CollectColumns | js/modals.js:158-167 | the loop over the rows collects those columns |
| Modals.SavedFromModal | js/modals.js:150-217 | a blank name is refused, and so is a list without a named row; a save closes the modal and the popover and keeps what is being edited |
| Modals.ModalAddAppends | js/modals.js:199-209 | adding appends exactly one table at the origin with the collected columns and chosen style, leaves the others and the relationships alone and keeps them backed |
| Modals.ModalEditReplaces | js/modals.js:177-198 | editing keeps the number and position of the tables, gives the first table of the edited name the new name, exactly the collected columns (none a foreign key) and the style, rewrites references elsewhere and renames the relationships |
| Modals.SaveTableFromModal | js/modals.js:150-217 | a refused save changes nothing; a save gives the saved state and reports it |
| Modals.SaveSchema | js/modals.js:177-209 | the edit-or-add step with the reference loop computes the new tables and relationships |
| Modals.CloseTableModal | js/app.js:109 | only the modal closes |
| Modals.OpenAddTableModal | js/modals.js:87-97 | nothing is being edited, the modal shows, with `fa-table` and "no colour" selected |
| Modals.OpenEditTableModal | js/modals.js:99-113 | the table is being edited and the modal shows, with the swatches of exactly matching palette entries selected and one row per column, its name as the input reads it back |
| Viewport.Zoomed | js/viewport.js:19-38 | the zoom is clamped to [0.25, 2] and kept when already inside; without an anchor the pan stays; nothing but zoom and pan changes |
| Viewport.ZoomKeepsAnchor | js/viewport.js:22-32 | zooming about an anchor keeps the world point under the anchor where it was |
| Viewport.SetZoom | js/viewport.js:19-38 | the method gives that state |
| Viewport.Wheeled | js/viewport.js:84-88 | one notch zooms by 0.1 about the pointer, out when scrolling down and in otherwise |
| Viewport.OnWheel | js/viewport.js:84-88 | the method gives that state |
| Viewport.ContentBoxTight | js/viewport.js:48-54 | the measured box holds every table's box and each of its edges is some table's edge |
| Viewport.MeasureContent | js/viewport.js:43-54 | the min/max loop computes that box |
| Viewport.ContentSize | js/viewport.js:56-57 | the content size is never below 1, and is the box's extent when that is at least 1 |
| Viewport.FitZoom | js/viewport.js:61-64 | the fitted zoom lies in [0.25, 1] |
| Viewport.FitViewCentres | js/viewport.js:64-66 | the centre of the measured content is drawn at the centre of the container |
| Viewport.Fitted | js/viewport.js:40-69 | without tables nothing changes; otherwise only zoom and pan change, the zoom in [0.25, 1] |
| Viewport.FitToScreen | js/viewport.js:40-69 | the method gives that state |
| Viewport.MouseDown | js/viewport.js:90-118 | a card drag or a draft in progress, or a press outside the canvas, changes nothing; the middle button starts a pan; the main button on empty canvas records a possible marquee; nothing else changes |
| Viewport.OnMouseDown | js/viewport.js:90-118 | the method gives that state |
| Viewport.PanFollowsPointer | js/viewport.js:122-129 | after two moves the view has moved by the pointer's total motion since the press, and nothing else changed |
| Viewport.MarqueeStartsPastThreshold | js/viewport.js:133-143 | a marquee starts exactly when a pending press moves more than the threshold on an axis, and nothing else changes |
| Viewport.OnMouseMove | js/viewport.js:120-157 | the method gives the state of the move function |
| Viewport.WorldBox | js/viewport.js:164-174 | the marquee's world rectangle is well ordered |
| Viewport.WorldBoxSymmetric | js/viewport.js:170-174 | the world rectangle does not depend on which way the marquee was dragged |
| Viewport.Hits | js/viewport.js:177-188 | the names of exactly the tables whose unpadded box overlaps the rectangle with positive area |
| Viewport.CollectHits | js/viewport.js:177-188 | the loop collects those names in table order |
| Viewport.AddMissing | js/viewport.js:191-197 | the old selection stays in front, the result holds exactly the old names and the hits, and no name is repeated when none was |
| Viewport.AddToSelection | js/viewport.js:193-197 | the loop computes that list |
| Viewport.MouseUpEnds | js/viewport.js:159-227 | a release ends the pan and any marquee, and only the selection may change besides |
| Viewport.ShortClickClears | js/viewport.js:208-214 | a press that never became a marquee clears the selection |
| Viewport.MarqueeSelects | js/viewport.js:190-201 | a marquee without hits keeps the selection; with hits it replaces it by them or, with the modifier, appends the missing ones without repeating a name |
| Viewport.OnMouseUp | js/viewport.js:159-227 | the method gives the state of the release function |
| Viewport.ReleasedSelection | js/viewport.js:161-214 | with a marquee rectangle the hits decide the selection; for a short click it is empty |

## Left out

- The `renderTables` step is not part of the operations that trigger it. The program calls it after a parse run (js/app.js:365), a clear (js/app.js:85), a modal save (js/modals.js:215), a table delete (js/tables.js:374), a new relationship (js/relationships.js:133), the popover's delete and save (js/relationships.js:359, 395), a marquee release or short click (js/viewport.js:205, 214) and a selection (js/tables.js:353). `App.RunParser`, `App.Clear`, `Modals.SaveTableFromModal`, `Tables.DeleteTable`, `Relationships.CreateRelationshipBetweenTables`, `Relationships.DeleteEditedRelationship`, `Relationships.SaveEditedRelationship`, `Viewport.OnMouseUp` and `Tables.SelectTable` stop before it. So after `App.RunParser` every table is still at (0, 0) with the old zoom, where the page would lay the tables out and fit the view. `Tables.RenderTables` models that step on its own (the old cards removed with every card's drag, auto-layout when every table is at the origin, overlap relaxation, recorded widths, fit to screen, from js/tables.js:52-55, 72, 76-78), with the measured widths and the container size as inputs; a caller composes it after the operation.
- `Text.Lower` and `Text.Upper` map ASCII letters only, where `toLowerCase` and `toUpperCase` use full Unicode case mapping. Every member that compares or rewrites names through them is affected: `Relationships.SanitizeColumnName` (JavaScript turns `İlçe` into `i_l_e`, the model into `l_e`), `Relationships.ClashesAsWritten` ("ÄRGER" against an existing "ärger" clash in JavaScript and not in the model), and `Parser.ParseConstraints` (JavaScript reads `pK`, with a Kelvin sign, as `pk`).
- Numbers are `real`, not IEEE doubles. `Viewport.ZoomKeepsAnchor`, `Viewport.FitViewCentres`, `Geometry.ResolveTableOverlaps` (the preserved coordinate sums) and `Tables.DragStopOnlyMoves` therefore hold exactly only over the reals; rounding is not modelled.
- Strings are sequences of Unicode scalar values, where JavaScript indexes UTF-16 code units. The positions below therefore agree with js/ui.js:249-270 only for text without characters outside the Basic Multilingual Plane.
- `Editor.BraceScan` gives the same positions as js/ui.js:249-264 only for text without characters outside the Basic Multilingual Plane.
- `Editor.LineRangeCounts` gives the same line positions as js/ui.js:267-270 only for such text.
- `Editor.MarkTable` gives the same range as js/ui.js:249-270 only for such text.
- Toast messages, confirmation dialogs and the SVG redraw by `renderRelationships` after each change are not modelled. What a redraw computes is `Router.RenderRelationships` and `Router.RenderDraft`, as functions of the state.
- `Editor.MarkTable`: the regular-expression search that finds `Table <name>` in `scrollToTableInEditor` (js/ui.js:243-247) is not modelled; the method starts from the position found. Scrolling to the line (js/ui.js:273-279) is left out as measurement.
- `Modals.SaveTableFromModal`: `state.editingTable` holds the table object by reference (js/modals.js:100, 178). The model holds the table's name and looks it up again when the modal saves. The two differ only when that table is renamed or removed while the modal is open.
- `ReadBack.GenerateThenParse` covers tables without indexes. A written `Indexes { … }` block closes with `}`, which also ends the table pattern of js/parser.js:16, so the rest of the table is lost on reading. The same lemma also requires:
  - column names that do not start with `indexes` in any case, because js/parser.js:41 skips such lines (a column `indexes_count` is dropped);
  - column notes without quotes (the note pattern of js/parser.js:158-160 stops at the first quote);
  - defaults and notes without line breaks, `/`, `}`, `[`, `]` or `,`;
  - word names and reference targets.
- `Modals.EditField`, `Modals.EditFields`, `Modals.UntouchedRows` and `Modals.OpenEditTableModal` model the unescaped `value="…"` attribute of js/modals.js:124 only as far as its first `"` (`Html.AttrValueRead`). The browser also decodes character references in the attribute, so a name such as `x&amp;y` comes back as `x&y`; the model keeps `&` sequences as they are.
- `Tables.UntouchedBlur` reads the card's name input (js/tables.js:145) the same way, as far as the first `"`. Character references are not decoded, so a table named `x&amp;y`, which the page renames `x&y` on an untouched blur, keeps its name in the model.
- `Tables.GroupOrigins` lists the recorded names in selection order. `Object.entries` lists names that are array indices (such as `12`) first, in numeric order. For names without `"`, `\` or a line break the move does not depend on that order, because the recorded names are distinct (`Tables.GroupDragExact`). With such a name the order decides which entries move before the page throws (next line).
- `Tables.MoveGroup`, `Tables.MoveGroupInPlace` and `Tables.OnHeaderPointerMove` assume that the selector `[data-table-name="<name>"]` finds the card of that name. The page builds it without escaping (js/tables.js:297). A name holding `"`, `\` or a line break can make the selector invalid. Then `querySelector` throws just after that entry has moved, and the entries after it stay put on every pointer move. Such a name can also form a valid selector that matches another card or none. Parsed names are word characters and never do this, but the table modal (js/modals.js:150) and the rename on blur (js/tables.js:189) accept them.
- `Tables.MoveGroupMovesListed` holds for the page only when no recorded name holds `"`, `\` or a line break (previous line).
- `Tables.GroupDragExact` holds for the page only when no selected name holds `"`, `\` or a line break (see the `Tables.MoveGroup` line).
- `Tables.WithWidths` and `Tables.RenderTables` take one measured width per table and assume the card lookup of js/tables.js:65 finds that table's card. It uses the same unescaped selector. A table name holding `"`, `\` or a line break can make `renderTables` throw there, after the auto-layout of js/tables.js:52-55 has run. Later widths are then not recorded, and the overlap relaxation, the card positions and the fit to screen (js/tables.js:72-78) are skipped. The model always records every width, relaxes overlaps and fits the view after a fresh layout.
- `Tables.RenderOnlyPlaces` holds for the page only when no table name holds `"`, `\` or a line break (see the `Tables.WithWidths` line).
- The suggestion refresh while the user types in the popover (`fkInputTouched`, js/relationships.js:221-229) is not modelled. The popover's inputs are parameters of `Relationships.SubmitCreateEditor` and `Relationships.SaveEditedRelationship`.
- js/export.js is not part of this model. Its PNG rendering, downloads, clipboard and share encoding are browser calls, and its routing pass repeats the router modelled in `Router`. js/templates.js holds only static sample data.
- Square-root geometry (`getPolylineLength`, `getPointAndDirectionAtDistance`, label midpoints), `pointsToSvgPath` formatting, `drawCardinalityBars`, table-card HTML and all styling are left out as presentation over floating point.
- The regex syntax highlighting of the editor (`highlightCodeLine` and its helpers in js/ui.js) is left out as presentation.
- Touch pan and pinch (js/viewport.js:234-332), the panel resizer, mobile tab switching, the overflow menu, the document title, scroll measurement and `syncLineNumberHeight` are browser plumbing and are left out.
- Pointer capture is left out: the caller says which card a pointer event reaches.
- `Relationships.FinishedDraft`, `Relationships.MovedDraft` and `Relationships.DraftPointerUp` record each registered draft listener by the name its source table had when the draft started. The page's closure holds the table object and reads its name when it runs, so a table renamed on its card between a cancelled draft and the next release is named differently by the stale listener in the page.
- `Relationships.FinishedOwnDraft` is the corrected release of Findings row 3. The operations keep the page's listeners as written, so no operation uses it; `Relationships.OwnListenerFinishes` shows that the page's release is this one whenever each cancel removes the draft's listeners.
- `Tables.DragStarted`, `Tables.DragMoved` and `Tables.DragStopped` key a card's drag by the position its table had when the cards were built, where the page's closure holds the table object. The two agree because every change to the table list is followed by `renderTables`, which builds the cards again and drops every drag (`Tables.Rendered`). The operations stop before that step, so a caller composes `Tables.RenderTables` after them before the next pointer event.
- localStorage is replaced by the store passed in and returned (`DragDrop.SaveCurrentSchema`, `DragDrop.LoadSchema`), and theme persistence by the theme value. `Date.now()` is a parameter, and `toLocaleDateString` for entries 30 days old or older is left out as locale formatting.
- `Generator.GenerateSQL` and the SQL text it builds use the corrected `Generator.SqlType`; the lookup as written is `Generator.SqlTypeAsWritten` (see Findings).
- `Generator.TableDefs` writes each table's column definitions with the corrected `Generator.SqlType`, not the lookup as written (Findings row 1).
- `Generator.ColumnDefinition` writes the column's type with the corrected `Generator.SqlType`, not the lookup as written (Findings row 1).
- `Relationships.SaveEditedRelationship` uses the corrected duplicate test `Relationships.SaveEdit`; the test as written is `Relationships.SaveEditAsWritten` (see Findings).

## Findings

| source | as written | input that shows it | evidently intended | confidence | as-written member | corrected member |
|---|---|---|---|---|---|---|
| js/parser.js:344 | `sqlType` looks the lower-cased type up with `typeMap[...]`, which also finds properties every object inherits | a column of type `constructor`: the SQL script gets `function Object() { [native code] }` as the column's type (and `[object Object]` for `__proto__`) | only the map's own keys are synonyms; any other type is written upper-cased (`CONSTRUCTOR`) | not executed | Generator.SqlTypeAsWritten, with Generator.SqlTypeConstructor and Generator.ConstructorType | Generator.SqlType, with Generator.SqlTypeAgrees |
| js/relationships.js:375-384 | saving the popover tests the typed name for a clash with the source table's other columns, then stores the sanitized name | columns `user_id` and `author`, popover opened on `author`, typed name "User Id": no column is named "User Id", so the save goes through and the table has two columns `user_id` | the clash test is on the name that is stored, so that column names stay distinct | not executed | Relationships.SaveEditAsWritten, with Relationships.SaveEditAsWrittenDuplicates | Relationships.SaveEdit, with Relationships.SaveEditKeepsNamesDistinct |
| js/relationships.js:434-439 | `cancelConnectionDraft` drops the draft but not the `pointermove`, `pointerup` and `pointercancel` listeners its start registered on `document`; the listeners are removed only by their own draft's release (js/relationships.js:490-492), and their check looks only at the current draft's pointer | drag from table `A`, press Escape, release; drag from `B` with the same pointer and release over `C`: the first draft's listener runs first and opens the popover for a key in `C` to `A`, and a release over `B` itself opens it for a key in `B` to `A` | a cancelled draft's listeners go with it, so a release finishes the current draft from its own source table | not executed | Relationships.FinishedDraft, with Relationships.StaleListenerFinishes and Relationships.StaleListenerOverOwnTable | Relationships.FinishedOwnDraft with Relationships.CancelDraftReleasing, Relationships.OwnListenerKept and Relationships.OwnListenerFinishes |
