/** The relationship router of `renderRelationships`: which relationships are
    drawn, which side of each table they leave and enter, how connectors that
    share a port are spread into lanes, where each path starts and ends, the
    cardinality label, and the preview of a connection being dragged. The SVG
    elements themselves are not modelled. */
module Router {
  import opened Wrappers
  import opened Text
  import opened Schema
  import opened Geometry
  import opened Session

  /** Distance between neighbouring lanes of one port. */
  const LaneStep: real := 10.0
  /** Gap between a table edge and the start of its connector. */
  const MarkerGap: real := 28.0
  /** Gaps of the draft preview at its source and at its target. */
  const DraftStartGap: real := 18.0
  const DraftEndGap: real := 12.0

  // ---------------------------------------------------------------------
  // Port keys
  // ---------------------------------------------------------------------

  function SideName(s: Side): string {
    match s
    case Left => "left"
    case Right => "right"
    case Top => "top"
    case Bottom => "bottom"
  }

  lemma SideNameLetters(s: Side)
    ensures ':' !in SideName(s)
  {
    var n := SideName(s);
    assert forall i :: 0 <= i < |n| ==> 'a' <= n[i] <= 'z';
  }

  /** The key `table:column:side` under which a port's lanes are counted. */
  function PortKey(table: string, column: string, side: Side): (k: string)
    ensures |k| >= 4
  {
    table + ":" + column + ":" + SideName(side)
  }

  /** The last four characters of a key, which tell its side. */
  function SideTail(s: Side): string {
    match s
    case Left => "left"
    case Right => "ight"
    case Top => ":top"
    case Bottom => "ttom"
  }

  lemma PortKeyTail(table: string, column: string, side: Side)
    ensures var k := PortKey(table, column, side); k[|k| - 4..] == SideTail(side)
  {
    var head := table + ":" + column;
    var tail := ":" + SideName(side);
    KeyRegroup(head, ":", SideName(side));
    SuffixOfConcat(head, tail, 4);
    SideTailOf(side);
  }

  lemma KeyRegroup(a: string, b: string, c: string)
    ensures a + b + c == a + (b + c)
  {
  }

  lemma SideTailOf(side: Side)
    ensures var tail := ":" + SideName(side); |tail| >= 4 && tail[|tail| - 4..] == SideTail(side)
  {
    match side
    case Left => LiteralTail(":left", "left");
    case Right => LiteralTail(":right", "ight");
    case Top => LiteralTail(":top", ":top");
    case Bottom => LiteralTail(":bottom", "ttom");
  }

  /** The last `|t|` characters of `s`, checked one by one. */
  lemma LiteralTail(s: string, t: string)
    requires |t| <= |s| && forall i :: 0 <= i < |t| ==> s[|s| - |t| + i] == t[i]
    ensures s[|s| - |t|..] == t
  {
  }

  lemma SuffixOfConcat(a: string, b: string, n: nat)
    requires n <= |b|
    ensures (a + b)[|a + b| - n..] == b[|b| - n..]
  {
  }

  /** Keys of different sides never coincide, whatever the names. */
  lemma PortKeySidesDiffer(t1: string, c1: string, s1: Side, t2: string, c2: string, s2: Side)
    requires s1 != s2
    ensures PortKey(t1, c1, s1) != PortKey(t2, c2, s2)
  {
    PortKeyTail(t1, c1, s1);
    PortKeyTail(t2, c2, s2);
  }

  /** With no `:` in the names, a key determines its port. */
  lemma PortKeyInjective(t1: string, c1: string, s1: Side, t2: string, c2: string, s2: Side)
    requires ':' !in t1 && ':' !in c1 && ':' !in t2 && ':' !in c2
    requires PortKey(t1, c1, s1) == PortKey(t2, c2, s2)
    ensures t1 == t2 && c1 == c2 && s1 == s2
  {
    PortKeySplit(t1, c1, s1);
    PortKeySplit(t2, c2, s2);
    if s1 != s2 {
      PortKeySidesDiffer(t1, c1, s1, t2, c2, s2);
    }
  }

  lemma PortKeySplit(t: string, c: string, s: Side)
    requires ':' !in t && ':' !in c
    ensures Split(PortKey(t, c, s), ':') == [t, c, SideName(s)]
  {
    var rest := c + [':'] + SideName(s);
    assert PortKey(t, c, s) == t + [':'] + rest;
    SplitConcat(t, ':', rest);
    SplitConcat(c, ':', SideName(s));
    SideNameLetters(s);
    SplitNoSep(SideName(s), ':');
  }

  /** Once a name holds `:`, two different ports can share one key, and with
      it one lane counter. */
  lemma PortKeysCanCollide()
    ensures PortKey("a:b", "c", Left) == PortKey("a", "b:c", Left)
  {
  }

  // ---------------------------------------------------------------------
  // First pass: routes and lane counts
  // ---------------------------------------------------------------------

  /** A relationship that resolved to two tables and two columns, with the
      sides and anchors chosen for it and the keys of its two ports. */
  datatype Route = Route(
    rel: Relationship,
    fromTable: Table,
    toTable: Table,
    fromColIndex: nat,
    toColIndex: nat,
    conn: Connection,
    fromKey: string,
    toKey: string)

  /** The route of one relationship, or nothing when its tables or columns
      cannot be found by name (the relationship is then skipped). */
  function RouteOf(tables: seq<Table>, rel: Relationship): (r: Option<Route>)
    ensures var f, t := FindTable(tables, rel.fromTable), FindTable(tables, rel.toTable);
            r.None? <==> (f.None? || t.None?
                          || FindColumn(tables[f.value].columns, rel.fromColumn).None?
                          || FindColumn(tables[t.value].columns, rel.toColumn).None?)
    ensures r.Some? ==>
              var x := r.value;
              Some(x.fromTable) == (var f := FindTable(tables, rel.fromTable); if f.Some? then Some(tables[f.value]) else None)
              && Some(x.toTable) == (var t := FindTable(tables, rel.toTable); if t.Some? then Some(tables[t.value]) else None)
              && x.rel == rel
              && x.fromColIndex < |x.fromTable.columns| && x.fromTable.columns[x.fromColIndex].name == rel.fromColumn
              && x.toColIndex < |x.toTable.columns| && x.toTable.columns[x.toColIndex].name == rel.toColumn
              && x.conn == SmartConnectionPoints(x.fromTable, x.toTable, x.fromColIndex, x.toColIndex)
              && x.fromKey == PortKey(rel.fromTable, rel.fromColumn, x.conn.sides.fromSide)
              && x.toKey == PortKey(rel.toTable, rel.toColumn, x.conn.sides.toSide)
  {
    match FindTable(tables, rel.fromTable)
    case None => None
    case Some(fi) =>
      match FindTable(tables, rel.toTable)
      case None => None
      case Some(ti) =>
        var from, to := tables[fi], tables[ti];
        match FindColumn(from.columns, rel.fromColumn)
        case None => None
        case Some(fc) =>
          match FindColumn(to.columns, rel.toColumn)
          case None => None
          case Some(tc) =>
            var conn := SmartConnectionPoints(from, to, fc, tc);
            Some(Route(rel, from, to, fc, tc, conn,
                       PortKey(rel.fromTable, rel.fromColumn, conn.sides.fromSide),
                       PortKey(rel.toTable, rel.toColumn, conn.sides.toSide)))
  }

  /** The two ports of a route are different ports: its two sides always differ. */
  lemma RouteKeysDiffer(tables: seq<Table>, rel: Relationship)
    requires RouteOf(tables, rel).Some?
    ensures RouteOf(tables, rel).value.fromKey != RouteOf(tables, rel).value.toKey
  {
    var x := RouteOf(tables, rel).value;
    PortKeySidesDiffer(rel.fromTable, rel.fromColumn, x.conn.sides.fromSide,
                       rel.toTable, rel.toColumn, x.conn.sides.toSide);
  }

  /** The routes of the first pass, in relationship order. */
  function Routes(tables: seq<Table>, rels: seq<Relationship>): seq<Route>
    decreases |rels|
  {
    if |rels| == 0 then []
    else
      var rest := Routes(tables, rels[..|rels| - 1]);
      match RouteOf(tables, rels[|rels| - 1])
      case None => rest
      case Some(r) => rest + [r]
  }

  /** Exactly the relationships that resolve are routed, each by its own
      route, and no route has the same port at both ends. */
  lemma {:induction false} RoutesResolved(tables: seq<Table>, rels: seq<Relationship>)
    ensures forall r :: r in Routes(tables, rels) ==>
              r.rel in rels && RouteOf(tables, r.rel) == Some(r) && r.fromKey != r.toKey
    ensures forall k :: 0 <= k < |rels| && RouteOf(tables, rels[k]).Some? ==>
              RouteOf(tables, rels[k]).value in Routes(tables, rels)
  {
    if |rels| > 0 {
      var init := rels[..|rels| - 1];
      RoutesResolved(tables, init);
      var last := rels[|rels| - 1];
      if RouteOf(tables, last).Some? {
        RouteKeysDiffer(tables, last);
      }
      forall k | 0 <= k < |rels| && RouteOf(tables, rels[k]).Some?
        ensures RouteOf(tables, rels[k]).value in Routes(tables, rels)
      {
        if k < |rels| - 1 {
          assert rels[k] == init[k];
        }
      }
    }
  }

  /** How many endpoints of `r` sit at port `key` (0, 1 or 2). */
  function EndUses(r: Route, key: string): nat {
    (if r.fromKey == key then 1 else 0) + (if r.toKey == key then 1 else 0)
  }

  /** How many route endpoints sit at port `key`. */
  function Uses(routes: seq<Route>, key: string): nat
    decreases |routes|
  {
    if |routes| == 0 then 0
    else Uses(routes[..|routes| - 1], key) + EndUses(routes[|routes| - 1], key)
  }

  lemma UsesSnoc(routes: seq<Route>, i: nat, key: string)
    requires i < |routes|
    ensures Uses(routes[..i + 1], key) == Uses(routes[..i], key) + EndUses(routes[i], key)
  {
    assert routes[..i + 1][..i] == routes[..i];
  }

  /** A map read with `|| 0`. */
  function Get(m: map<string, nat>, key: string): nat {
    if key in m then m[key] else 0
  }

  /** The first pass: the routes, and for every port the number of route
      endpoints at it. */
  method RouteRelationships(tables: seq<Table>, rels: seq<Relationship>)
    returns (routes: seq<Route>, counts: map<string, nat>)
    ensures routes == Routes(tables, rels)
    ensures forall key :: Get(counts, key) == Uses(routes, key)
  {
    routes := [];
    counts := map[];
    var i := 0;
    while i < |rels|
      invariant 0 <= i <= |rels|
      invariant routes == Routes(tables, rels[..i])
      invariant forall key :: Get(counts, key) == Uses(routes, key)
    {
      routes, counts := RouteOne(tables, rels, i, routes, counts);
      i := i + 1;
    }
    assert rels[..|rels|] == rels;
  }

  /** One step of the first pass: relationship `i` is routed if it resolves,
      and both of its ports are counted. */
  method RouteOne(tables: seq<Table>, rels: seq<Relationship>, i: nat,
                  routes: seq<Route>, counts: map<string, nat>)
    returns (routes': seq<Route>, counts': map<string, nat>)
    requires i < |rels|
    requires routes == Routes(tables, rels[..i])
    requires forall key :: Get(counts, key) == Uses(routes, key)
    ensures routes' == Routes(tables, rels[..i + 1])
    ensures forall key :: Get(counts', key) == Uses(routes', key)
  {
    RoutesSnoc(tables, rels, i);
    var r := RouteOf(tables, rels[i]);
    if r.Some? {
      var x := r.value;
      var c := counts[x.fromKey := Get(counts, x.fromKey) + 1];
      counts' := c[x.toKey := Get(c, x.toKey) + 1];
      routes' := routes + [x];
      CountStep(routes, counts, x);
    } else {
      routes', counts' := routes, counts;
    }
  }

  lemma RoutesSnoc(tables: seq<Table>, rels: seq<Relationship>, i: nat)
    requires i < |rels|
    ensures Routes(tables, rels[..i + 1])
            == match RouteOf(tables, rels[i])
               case None => Routes(tables, rels[..i])
               case Some(r) => Routes(tables, rels[..i]) + [r]
  {
    assert rels[..i + 1][..i] == rels[..i];
  }

  lemma CountStep(routes: seq<Route>, counts: map<string, nat>, x: Route)
    requires forall key :: Get(counts, key) == Uses(routes, key)
    ensures var c := counts[x.fromKey := Get(counts, x.fromKey) + 1];
            var next := c[x.toKey := Get(c, x.toKey) + 1];
            forall key :: Get(next, key) == Uses(routes + [x], key)
  {
    forall key ensures Uses(routes + [x], key) == Uses(routes, key) + EndUses(x, key) {
      assert (routes + [x])[..|routes|] == routes;
    }
  }

  // ---------------------------------------------------------------------
  // Second pass: lanes and endpoints
  // ---------------------------------------------------------------------

  /** The lane index of the endpoint of route `i` at `key`: the number of
      endpoints at that port among the earlier routes. */
  function LaneIndex(routes: seq<Route>, i: nat, key: string): nat
    requires i <= |routes|
  {
    Uses(routes[..i], key)
  }

  /** Lane indexes at a port lie below the port's count. */
  lemma {:induction false} LaneIndexBelowCount(routes: seq<Route>, i: nat, key: string)
    requires i < |routes| && EndUses(routes[i], key) > 0
    ensures LaneIndex(routes, i, key) < Uses(routes, key)
  {
    UsesSnoc(routes, i, key);
    UsesPrefixMono(routes, i + 1, |routes|, key);
    assert routes[..|routes|] == routes;
  }

  lemma {:induction false} UsesPrefixMono(routes: seq<Route>, i: nat, j: nat, key: string)
    requires i <= j <= |routes|
    ensures Uses(routes[..i], key) <= Uses(routes[..j], key)
    decreases j - i
  {
    if i < j {
      UsesSnoc(routes, j - 1, key);
      UsesPrefixMono(routes, i, j - 1, key);
    }
  }

  /** Two routes at the same port get different lanes, the later route the
      higher one. */
  lemma LaneIndexIncreasing(routes: seq<Route>, i: nat, j: nat, key: string)
    requires i < j < |routes| && EndUses(routes[i], key) > 0
    ensures LaneIndex(routes, i, key) < LaneIndex(routes, j, key)
  {
    UsesSnoc(routes, i, key);
    UsesPrefixMono(routes, i + 1, j, key);
  }

  /** No route has the same port at both ends; true of every first pass. */
  predicate DistinctEnds(routes: seq<Route>) {
    forall i :: 0 <= i < |routes| ==> routes[i].fromKey != routes[i].toKey
  }

  /** Some endpoint at port `key` has lane `lane`. */
  ghost predicate LaneTaken(routes: seq<Route>, key: string, lane: nat) {
    exists i {:trigger LaneIndex(routes, i, key)} :: 0 <= i < |routes| && EndUses(routes[i], key) > 0 && LaneIndex(routes, i, key) == lane
  }

  /** Every lane below the port's count is taken by some route at that port:
      the lanes of a port are exactly 0 .. count-1. */
  lemma {:induction false} LaneIndexTaken(routes: seq<Route>, key: string, lane: nat)
    requires DistinctEnds(routes)
    requires lane < Uses(routes, key)
    ensures LaneTaken(routes, key, lane)
    decreases |routes|
  {
    var n := |routes|;
    var init := routes[..n - 1];
    UsesSnoc(routes, n - 1, key);
    assert routes[..n] == routes;
    if lane < Uses(init, key) {
      assert DistinctEnds(init) by {
        forall i | 0 <= i < |init| ensures init[i].fromKey != init[i].toKey {
          assert init[i] == routes[i];
        }
      }
      LaneIndexTaken(init, key, lane);
      var i :| 0 <= i < |init| && EndUses(init[i], key) > 0 && LaneIndex(init, i, key) == lane;
      assert init[..i] == routes[..i];
      assert routes[i] == init[i];
      assert LaneIndex(routes, i, key) == lane;
    } else {
      assert routes[n - 1].fromKey != routes[n - 1].toKey;
      assert LaneIndex(routes, n - 1, key) == lane;
    }
  }

  /** Every route of a first pass names columns that exist. */
  predicate WellFormed(routes: seq<Route>) {
    DistinctEnds(routes)
    && forall i :: 0 <= i < |routes| ==>
         routes[i].fromColIndex < |routes[i].fromTable.columns|
         && routes[i].toColIndex < |routes[i].toTable.columns|
  }

  lemma RoutesWellFormed(tables: seq<Table>, rels: seq<Relationship>)
    ensures WellFormed(Routes(tables, rels))
  {
    RoutesResolved(tables, rels);
    var routes := Routes(tables, rels);
    forall i | 0 <= i < |routes|
      ensures routes[i].fromColIndex < |routes[i].fromTable.columns|
      ensures routes[i].toColIndex < |routes[i].toTable.columns|
      ensures routes[i].fromKey != routes[i].toKey
    {
      assert routes[i] in routes;
    }
  }

  /** A lane count read with `|| 1`. */
  function LaneCount(stored: nat): (n: nat)
    ensures n >= 1
    ensures stored >= 1 ==> n == stored
  {
    if stored == 0 then 1 else stored
  }

  /** One drawn relationship: its route, the lane and lane count at each end,
      the lane-shifted anchors, the path endpoints pushed out by the marker
      gap, the polyline, and what the markers and the label show. */
  datatype RoutePath = RoutePath(
    route: Route,
    fromLane: nat,
    fromCount: nat,
    toLane: nat,
    toCount: nat,
    fromPoint: Point,
    toPoint: Point,
    fromPath: Point,
    toPath: Point,
    polyline: seq<Point>,
    highlighted: bool,
    optional: bool,
    fromIsOne: bool,
    toIsOne: bool,
    cardinality: string)

  /** An end is drawn as "one" when its column is unique or a primary key. */
  predicate IsOne(c: Column) {
    c.unique || c.pk
  }

  /** The source end's label: `1`/`N`, with `0..` in front when the column is
      neither not-null nor a primary key. */
  function FromEndLabel(c: Column): (s: string)
    ensures ':' !in s
  {
    var base := if IsOne(c) then "1" else "N";
    var s := if !c.notNull && !c.pk then "0.." + base else base;
    assert forall i :: 0 <= i < |s| ==> s[i] in "0.1N";
    s
  }

  /** The target end's label: only ever `1` or `N`. */
  function ToEndLabel(c: Column): (s: string)
    ensures ':' !in s
  {
    if IsOne(c) then "1" else "N"
  }

  /** The cardinality label `from:to`. */
  function Cardinality(fromCol: Column, toCol: Column): (text: string)
    ensures Split(text, ':') == [FromEndLabel(fromCol), ToEndLabel(toCol)]
  {
    SplitConcat(FromEndLabel(fromCol), ':', ToEndLabel(toCol));
    FromEndLabel(fromCol) + ":" + ToEndLabel(toCol)
  }

  /** Reading a label back: it has two parts; the first starts with `0..`
      exactly when the source column is nullable and not a key, and ends in
      `1` exactly when the source end is "one"; the second is `1` or `N`,
      `1` exactly when the target end is "one". */
  lemma CardinalityParts(fromCol: Column, toCol: Column)
    ensures var parts := Split(Cardinality(fromCol, toCol), ':');
            |parts| == 2
            && (StartsWith(parts[0], "0..") <==> !fromCol.notNull && !fromCol.pk)
            && |parts[0]| > 0 && (parts[0][|parts[0]| - 1] == '1' <==> IsOne(fromCol))
            && parts[0] in {"1", "N", "0..1", "0..N"}
            && parts[1] in {"1", "N"} && (parts[1] == "1" <==> IsOne(toCol))
  {
    var f := FromEndLabel(fromCol);
    if !fromCol.notNull && !fromCol.pk {
      assert f == "0..1" || f == "0..N";
      assert f[3] == (if IsOne(fromCol) then '1' else 'N');
    } else {
      assert f == "1" || f == "N";
      assert f[0] == (if IsOne(fromCol) then '1' else 'N');
      assert !StartsWith(f, "0..");
    }
  }

  /** The dashed line and the `0..` prefix disagree on one case only: a
      nullable primary-key source column is drawn dashed but labelled `1`. */
  lemma OptionalVersusPrefix(fromCol: Column, toCol: Column)
    ensures StartsWith(FromEndLabel(fromCol), "0..") ==> !fromCol.notNull
    ensures !fromCol.notNull && !StartsWith(FromEndLabel(fromCol), "0..") ==> fromCol.pk
  {
    CardinalityParts(fromCol, toCol);
  }

  /** The route's path once its lanes are known: each anchor moves along its
      side by its lane offset, then out of the table by the marker gap. */
  function PathOf(r: Route, fromLane: nat, fromCount: nat, toLane: nat, toCount: nat,
                  hovered: Option<string>): RoutePath
    requires r.fromColIndex < |r.fromTable.columns| && r.toColIndex < |r.toTable.columns|
  {
    var sides := r.conn.sides;
    var fromPoint := OffsetAlongSide(r.conn.fromPoint, sides.fromSide, LaneOffset(fromLane, fromCount, LaneStep));
    var toPoint := OffsetAlongSide(r.conn.toPoint, sides.toSide, LaneOffset(toLane, toCount, LaneStep));
    var fromPath := OffsetAlongNormal(fromPoint, sides.fromSide, MarkerGap);
    var toPath := OffsetAlongNormal(toPoint, sides.toSide, MarkerGap);
    var selfRef := r.rel.fromTable == r.rel.toTable;
    var polyline := Simplified(AsRaw(OrthogonalRoute(fromPath, toPath, sides.fromSide, sides.toSide, selfRef)));
    var fromCol := r.fromTable.columns[r.fromColIndex];
    var toCol := r.toTable.columns[r.toColIndex];
    var highlighted := Truthy(hovered) && (r.rel.fromTable == hovered.value || r.rel.toTable == hovered.value);
    RoutePath(r, fromLane, fromCount, toLane, toCount, fromPoint, toPoint, fromPath, toPath, polyline,
              highlighted, !fromCol.notNull, IsOne(fromCol), IsOne(toCol), Cardinality(fromCol, toCol))
  }

  /** The path of route `i` of a first pass, with the lanes the second pass
      gives it. */
  function PathAt(routes: seq<Route>, i: nat, hovered: Option<string>): RoutePath
    requires WellFormed(routes) && i < |routes|
  {
    var r := routes[i];
    PathOf(r, LaneIndex(routes, i, r.fromKey), LaneCount(Uses(routes, r.fromKey)),
           LaneIndex(routes, i, r.toKey), LaneCount(Uses(routes, r.toKey)), hovered)
  }

  /** The second pass: lanes handed out in route order, each port's usage
      counter read for both ends before either is advanced. */
  method AssignLanes(routes: seq<Route>, counts: map<string, nat>, hovered: Option<string>)
    returns (paths: seq<RoutePath>)
    requires WellFormed(routes)
    requires forall key :: Get(counts, key) == Uses(routes, key)
    ensures |paths| == |routes|
    ensures forall i :: 0 <= i < |routes| ==> paths[i] == PathAt(routes, i, hovered)
  {
    paths := [];
    var usage: map<string, nat> := map[];
    var i := 0;
    while i < |routes|
      invariant 0 <= i <= |routes|
      invariant PathsUpTo(routes, i, hovered, paths)
      invariant forall key :: Get(usage, key) == Uses(routes[..i], key)
    {
      usage, paths := AssignLane(routes, counts, hovered, i, usage, paths);
      i := i + 1;
    }
  }

  /** One step of the second pass: route `i`'s path from the counters as
      they stand, and both counters advanced. */
  method AssignLane(routes: seq<Route>, counts: map<string, nat>, hovered: Option<string>,
                    i: nat, usage: map<string, nat>, paths: seq<RoutePath>)
    returns (usage': map<string, nat>, paths': seq<RoutePath>)
    requires WellFormed(routes) && i < |routes|
    requires forall key :: Get(counts, key) == Uses(routes, key)
    requires PathsUpTo(routes, i, hovered, paths)
    requires forall key :: Get(usage, key) == Uses(routes[..i], key)
    ensures PathsUpTo(routes, i + 1, hovered, paths')
    ensures forall key :: Get(usage', key) == Uses(routes[..i + 1], key)
  {
    var r := routes[i];
    var fromCount := LaneCount(Get(counts, r.fromKey));
    var toCount := LaneCount(Get(counts, r.toKey));
    var fromIndex := Get(usage, r.fromKey);
    var toIndex := Get(usage, r.toKey);
    var path := BuildPath(r, fromIndex, fromCount, toIndex, toCount, hovered);
    LaneStepPath(routes, counts, hovered, i, usage, paths, path);
    usage' := usage[r.fromKey := fromIndex + 1][r.toKey := toIndex + 1];
    UsageStep(routes, i, usage, usage');
    paths' := paths + [path];
  }

  /** The path built from the counters as they stand extends the paths. */
  lemma LaneStepPath(routes: seq<Route>, counts: map<string, nat>, hovered: Option<string>,
                 i: nat, usage: map<string, nat>, paths: seq<RoutePath>, path: RoutePath)
    requires WellFormed(routes) && i < |routes|
    requires forall key :: Get(counts, key) == Uses(routes, key)
    requires PathsUpTo(routes, i, hovered, paths)
    requires forall key :: Get(usage, key) == Uses(routes[..i], key)
    requires var r := routes[i];
             path == PathOf(r, Get(usage, r.fromKey), LaneCount(Get(counts, r.fromKey)),
                            Get(usage, r.toKey), LaneCount(Get(counts, r.toKey)), hovered)
    ensures PathsUpTo(routes, i + 1, hovered, paths + [path])
  {
    var r := routes[i];
    assert Get(usage, r.fromKey) == Uses(routes[..i], r.fromKey);
    assert Get(usage, r.toKey) == Uses(routes[..i], r.toKey);
    assert Get(counts, r.fromKey) == Uses(routes, r.fromKey);
    assert Get(counts, r.toKey) == Uses(routes, r.toKey);
    PathAtLanes(routes, i, hovered, path);
    PathsUpToSnoc(routes, i, hovered, paths, path);
  }

  /** `paths` holds the paths of the first `i` routes. */
  predicate PathsUpTo(routes: seq<Route>, i: nat, hovered: Option<string>, paths: seq<RoutePath>)
    requires WellFormed(routes) && i <= |routes|
  {
    |paths| == i && forall j :: 0 <= j < i ==> paths[j] == PathAt(routes, j, hovered)
  }

  lemma PathsUpToSnoc(routes: seq<Route>, i: nat, hovered: Option<string>, paths: seq<RoutePath>, p: RoutePath)
    requires WellFormed(routes) && i < |routes|
    requires PathsUpTo(routes, i, hovered, paths) && p == PathAt(routes, i, hovered)
    ensures PathsUpTo(routes, i + 1, hovered, paths + [p])
  {
    var q := paths + [p];
    forall j | 0 <= j < i + 1
      ensures q[j] == PathAt(routes, j, hovered)
    {
      if j < i {
        assert q[j] == paths[j];
      } else {
        assert q[j] == p;
      }
    }
  }

  /** The path built from the counters read before route `i` is its path. */
  lemma PathAtLanes(routes: seq<Route>, i: nat, hovered: Option<string>, p: RoutePath)
    requires WellFormed(routes) && i < |routes|
    requires var r := routes[i];
             p == PathOf(r, Uses(routes[..i], r.fromKey), LaneCount(Uses(routes, r.fromKey)),
                         Uses(routes[..i], r.toKey), LaneCount(Uses(routes, r.toKey)), hovered)
    ensures p == PathAt(routes, i, hovered)
  {
  }

  /** Advancing the counters of route `i`'s two ports counts its endpoints. */
  lemma UsageStep(routes: seq<Route>, i: nat, usage: map<string, nat>, next: map<string, nat>)
    requires DistinctEnds(routes) && i < |routes|
    requires forall key :: Get(usage, key) == Uses(routes[..i], key)
    requires next == usage[routes[i].fromKey := Get(usage, routes[i].fromKey) + 1]
                          [routes[i].toKey := Get(usage, routes[i].toKey) + 1]
    ensures forall key :: Get(next, key) == Uses(routes[..i + 1], key)
  {
    forall key ensures Get(next, key) == Uses(routes[..i + 1], key) {
      UsesSnoc(routes, i, key);
    }
  }

  /** One route's path, built with the polyline method. */
  method BuildPath(r: Route, fromLane: nat, fromCount: nat, toLane: nat, toCount: nat,
                   hovered: Option<string>) returns (p: RoutePath)
    requires r.fromColIndex < |r.fromTable.columns| && r.toColIndex < |r.toTable.columns|
    ensures p == PathOf(r, fromLane, fromCount, toLane, toCount, hovered)
  {
    var sides := r.conn.sides;
    var fromPoint := OffsetAlongSide(r.conn.fromPoint, sides.fromSide, LaneOffset(fromLane, fromCount, LaneStep));
    var toPoint := OffsetAlongSide(r.conn.toPoint, sides.toSide, LaneOffset(toLane, toCount, LaneStep));
    var fromPath := OffsetAlongNormal(fromPoint, sides.fromSide, MarkerGap);
    var toPath := OffsetAlongNormal(toPoint, sides.toSide, MarkerGap);
    var selfRef := r.rel.fromTable == r.rel.toTable;
    var polyline := BuildOrthogonalPolyline(fromPath, toPath, sides.fromSide, sides.toSide, selfRef);
    var fromCol := r.fromTable.columns[r.fromColIndex];
    var toCol := r.toTable.columns[r.toColIndex];
    var highlighted := Truthy(hovered) && (r.rel.fromTable == hovered.value || r.rel.toTable == hovered.value);
    p := RoutePath(r, fromLane, fromCount, toLane, toCount, fromPoint, toPoint, fromPath, toPath, polyline,
                   highlighted, !fromCol.notNull, IsOne(fromCol), IsOne(toCol), Cardinality(fromCol, toCol));
  }

  /** The routing part of `renderRelationships`: both passes. */
  method RenderRelationships(tables: seq<Table>, rels: seq<Relationship>, hovered: Option<string>)
    returns (paths: seq<RoutePath>)
    ensures |paths| == |Routes(tables, rels)|
    ensures forall i :: 0 <= i < |paths| ==>
              WellFormed(Routes(tables, rels)) && paths[i] == PathAt(Routes(tables, rels), i, hovered)
  {
    var routes, counts := RouteRelationships(tables, rels);
    RoutesWellFormed(tables, rels);
    paths := AssignLanes(routes, counts, hovered);
  }

  /** At a port used by `n` endpoints the lanes are 0 .. n-1, one endpoint
      each, and their offsets are centred: lane `k` and lane `n-1-k` are
      mirror images and neighbours are `LaneStep` apart. */
  lemma PortLanes(routes: seq<Route>, i: nat, key: string)
    requires WellFormed(routes) && i < |routes| && EndUses(routes[i], key) > 0
    ensures var n := Uses(routes, key);
            var k := LaneIndex(routes, i, key);
            k < n && LaneCount(n) == n
            && (n > 1 ==> LaneOffset(n - 1 - k, n, LaneStep) == -LaneOffset(k, n, LaneStep))
            && (n == 1 ==> LaneOffset(k, n, LaneStep) == 0.0)
            && (forall j {:trigger LaneIndex(routes, j, key)} :: 0 <= j < |routes| && j != i && EndUses(routes[j], key) > 0 ==>
                  LaneIndex(routes, j, key) != k)
            && (forall m :: 0 <= m < n ==> LaneTaken(routes, key, m))
  {
    var n := Uses(routes, key);
    var k := LaneIndex(routes, i, key);
    LaneIndexBelowCount(routes, i, key);
    PortOffsets(k, n);
    LanesDistinct(routes, i, key);
    LanesCovered(routes, key);
  }

  lemma PortOffsets(k: nat, n: nat)
    requires k < n
    ensures LaneCount(n) == n
    ensures n > 1 ==> LaneOffset(n - 1 - k, n, LaneStep) == -LaneOffset(k, n, LaneStep)
    ensures n == 1 ==> LaneOffset(k, n, LaneStep) == 0.0
  {
    if n > 1 {
      LaneOffsetsCentred(k, n, LaneStep);
    }
  }

  lemma LanesDistinct(routes: seq<Route>, i: nat, key: string)
    requires i < |routes| && EndUses(routes[i], key) > 0
    ensures forall j {:trigger LaneIndex(routes, j, key)} :: 0 <= j < |routes| && j != i && EndUses(routes[j], key) > 0 ==>
              LaneIndex(routes, j, key) != LaneIndex(routes, i, key)
  {
    forall j | 0 <= j < |routes| && j != i && EndUses(routes[j], key) > 0
      ensures LaneIndex(routes, j, key) != LaneIndex(routes, i, key)
    {
      if j < i {
        LaneIndexIncreasing(routes, j, i, key);
      } else {
        LaneIndexIncreasing(routes, i, j, key);
      }
    }
  }

  lemma LanesCovered(routes: seq<Route>, key: string)
    requires DistinctEnds(routes)
    ensures forall m :: 0 <= m < Uses(routes, key) ==> LaneTaken(routes, key, m)
  {
    forall m | 0 <= m < Uses(routes, key)
      ensures LaneTaken(routes, key, m)
    {
      LaneIndexTaken(routes, key, m);
    }
  }

  /** Where a path starts: exactly `MarkerGap` outside the source side of the
      source table, shifted along that side by the lane offset (and dually at
      the target). */
  lemma PathEndpoints(r: Route, fromLane: nat, fromCount: nat, toLane: nat, toCount: nat,
                      hovered: Option<string>)
    requires r.fromColIndex < |r.fromTable.columns| && r.toColIndex < |r.toTable.columns|
    requires r.conn == SmartConnectionPoints(r.fromTable, r.toTable, r.fromColIndex, r.toColIndex)
    ensures var p := PathOf(r, fromLane, fromCount, toLane, toCount, hovered);
            var t, s, a, off := r.fromTable, r.conn.sides.fromSide, r.conn.fromPoint, LaneOffset(fromLane, fromCount, LaneStep);
            (s == Left ==> p.fromPath == Point(t.x - MarkerGap, a.y + off))
            && (s == Right ==> p.fromPath == Point(t.x + TableDims(t).width + MarkerGap, a.y + off))
            && (s == Top ==> p.fromPath == Point(a.x + off, t.y - MarkerGap))
            && (s == Bottom ==> p.fromPath == Point(a.x + off, t.y + TableDims(t).height + MarkerGap))
    ensures var p := PathOf(r, fromLane, fromCount, toLane, toCount, hovered);
            var t, s, a, off := r.toTable, r.conn.sides.toSide, r.conn.toPoint, LaneOffset(toLane, toCount, LaneStep);
            (s == Left ==> p.toPath == Point(t.x - MarkerGap, a.y + off))
            && (s == Right ==> p.toPath == Point(t.x + TableDims(t).width + MarkerGap, a.y + off))
            && (s == Top ==> p.toPath == Point(a.x + off, t.y - MarkerGap))
            && (s == Bottom ==> p.toPath == Point(a.x + off, t.y + TableDims(t).height + MarkerGap))
  {
    var sides := r.conn.sides;
    var p := PathOf(r, fromLane, fromCount, toLane, toCount, hovered);
    var fromOff, toOff := LaneOffset(fromLane, fromCount, LaneStep), LaneOffset(toLane, toCount, LaneStep);
    assert p.fromPath == OffsetAlongNormal(OffsetAlongSide(r.conn.fromPoint, sides.fromSide, fromOff), sides.fromSide, MarkerGap);
    assert p.toPath == OffsetAlongNormal(OffsetAlongSide(r.conn.toPoint, sides.toSide, toOff), sides.toSide, MarkerGap);
    EndGap(r.fromTable, r.fromColIndex, sides.fromSide, fromOff);
    EndGap(r.toTable, r.toColIndex, sides.toSide, toOff);
  }

  /** An anchor shifted along its side and pushed out by the marker gap. */
  lemma EndGap(t: Table, col: int, s: Side, off: real)
    ensures var a := AnchorForSide(t, col, s);
            var q := OffsetAlongNormal(OffsetAlongSide(a, s, off), s, MarkerGap);
            (s == Left ==> q == Point(t.x - MarkerGap, a.y + off))
            && (s == Right ==> q == Point(t.x + TableDims(t).width + MarkerGap, a.y + off))
            && (s == Top ==> q == Point(a.x + off, t.y - MarkerGap))
            && (s == Bottom ==> q == Point(a.x + off, t.y + TableDims(t).height + MarkerGap))
  {
  }

  // ---------------------------------------------------------------------
  // Draft preview
  // ---------------------------------------------------------------------

  /** The preview of a connection being dragged: the side and point it
      enters, its two path endpoints, and its polyline. */
  datatype Preview = Preview(
    hasTarget: bool,
    toSide: Side,
    toPoint: Point,
    start: Point,
    end: Point,
    points: seq<Point>)

  /** The table under the pointer, looked up by name; an empty or unknown
      name counts as none. */
  function DraftTarget(tables: seq<Table>, d: Draft): (r: Option<nat>)
    ensures r.Some? ==> Truthy(d.targetTable) && FindTable(tables, d.targetTable.value) == r
    ensures r.None? ==> !Truthy(d.targetTable) || FindTable(tables, d.targetTable.value).None?
  {
    if Truthy(d.targetTable) then FindTable(tables, d.targetTable.value) else None
  }

  /** Without a target, the side the preview enters by: the dominant axis of
      the drag, facing back toward where it started. */
  function FreeEndSide(from: Point, to: Point): Side {
    var dx := to.x - from.x;
    var dy := to.y - from.y;
    if Abs(dx) >= Abs(dy) then (if dx >= 0.0 then Left else Right)
    else (if dy >= 0.0 then Top else Bottom)
  }

  /** The preview, or nothing when the source table is gone. */
  function DraftPreview(tables: seq<Table>, d: Draft): (r: Option<Preview>)
    ensures r.None? <==> FindTable(tables, d.fromTable).None?
  {
    if FindTable(tables, d.fromTable).None? then None
    else
      var target := DraftTarget(tables, d);
      var toSide := if target.Some? then ChooseSideToPoint(tables[target.value], d.fromPoint)
                    else FreeEndSide(d.fromPoint, d.currentPoint);
      var toPoint := if target.Some? then BoundaryAnchor(tables[target.value], toSide) else d.currentPoint;
      var start := OffsetAlongNormal(d.fromPoint, d.fromSide, DraftStartGap);
      var end := OffsetAlongNormal(toPoint, toSide, DraftEndGap);
      Some(Preview(target.Some?, toSide, toPoint, start, end,
                   Simplified(AsRaw(OrthogonalRoute(start, end, d.fromSide, toSide, false)))))
  }

  /** A free end faces back: its side lies on the drag's dominant axis and its
      outward normal points against the drag. Over a table, the side entered is
      the one facing the source point. */
  lemma DraftPreviewFacesBack(tables: seq<Table>, d: Draft)
    requires DraftPreview(tables, d).Some?
    ensures var p := DraftPreview(tables, d).value;
            var dx, dy := d.currentPoint.x - d.fromPoint.x, d.currentPoint.y - d.fromPoint.y;
            !p.hasTarget ==>
              p.toPoint == d.currentPoint
              && (IsHorizontal(p.toSide) <==> Abs(dx) >= Abs(dy))
              && Normal(p.toSide).x * dx + Normal(p.toSide).y * dy <= 0.0
    ensures var p := DraftPreview(tables, d).value;
            p.hasTarget ==>
              var t := tables[DraftTarget(tables, d).value];
              var c := TableCenter(t);
              p.toPoint == BoundaryAnchor(t, p.toSide)
              && Normal(p.toSide).x * (d.fromPoint.x - c.x) + Normal(p.toSide).y * (d.fromPoint.y - c.y) >= 0.0
    ensures var p := DraftPreview(tables, d).value;
            p.start == Point(d.fromPoint.x + Normal(d.fromSide).x * DraftStartGap,
                             d.fromPoint.y + Normal(d.fromSide).y * DraftStartGap)
            && p.end == Point(p.toPoint.x + Normal(p.toSide).x * DraftEndGap,
                              p.toPoint.y + Normal(p.toSide).y * DraftEndGap)
  {
  }

  /** The draft part of `renderRelationships`, built with the polyline method. */
  method RenderDraft(tables: seq<Table>, d: Draft) returns (r: Option<Preview>)
    ensures r == DraftPreview(tables, d)
  {
    if FindTable(tables, d.fromTable).None? {
      return None;
    }
    var target := DraftTarget(tables, d);
    var toSide: Side;
    var toPoint: Point;
    if target.Some? {
      toSide := ChooseSideToPoint(tables[target.value], d.fromPoint);
      toPoint := BoundaryAnchor(tables[target.value], toSide);
    } else {
      toPoint := d.currentPoint;
      toSide := FreeEndSide(d.fromPoint, d.currentPoint);
    }
    var start := OffsetAlongNormal(d.fromPoint, d.fromSide, DraftStartGap);
    var end := OffsetAlongNormal(toPoint, toSide, DraftEndGap);
    var points := BuildOrthogonalPolyline(start, end, d.fromSide, toSide, false);
    r := Some(Preview(target.Some?, toSide, toPoint, start, end, points));
  }
}
