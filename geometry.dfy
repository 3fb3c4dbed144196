/** Table geometry, connector anchors, side selection, orthogonal polylines and
    the overlap-resolution pass of the canvas. Coordinates are world
    coordinates; all arithmetic is exact (no floating point). */
module Geometry {
  import opened Wrappers
  import opened Schema

  datatype Point = Point(x: real, y: real)

  datatype Side = Left | Right | Top | Bottom

  datatype Dims = Dims(width: real, height: real)

  /** An axis-aligned rectangle: top-left corner and extent. */
  datatype Rect = Rect(x: real, y: real, width: real, height: real)

  datatype SidePair = SidePair(fromSide: Side, toSide: Side)

  const HeaderHeight: real := 42.0
  const RowHeight: real := 24.0
  const DefaultWidth: real := 220.0

  function Abs(v: real): real {
    if v < 0.0 then -v else v
  }

  function Min(a: real, b: real): real {
    if a <= b then a else b
  }

  function Max(a: real, b: real): real {
    if a >= b then a else b
  }

  /** `Math.max(lo, Math.min(hi, v))`. */
  function Clamp(v: real, lo: real, hi: real): (r: real)
    ensures lo <= hi ==> lo <= r <= hi
    ensures lo <= v <= hi ==> r == v
    ensures hi < lo ==> r == lo
  {
    Max(lo, Min(hi, v))
  }

  /** Width: the measured card width, or 220 when it is absent or zero.
      Height: a 42-unit header, 24 units per column and a 4-unit footer. */
  function TableDims(t: Table): Dims {
    Dims(
      if t.renderedWidth.Some? && t.renderedWidth.value != 0.0 then t.renderedWidth.value else DefaultWidth,
      HeaderHeight + |t.columns| as real * RowHeight + 4.0)
  }

  /** Each column adds exactly one row to the height and nothing to the width;
      a table without columns is 46 units tall. */
  lemma TableDimsPerColumn(t: Table, c: Column)
    ensures TableDims(t.(columns := t.columns + [c])).height == TableDims(t).height + RowHeight
    ensures TableDims(t.(columns := t.columns + [c])).width == TableDims(t).width
    ensures |t.columns| == 0 ==> TableDims(t).height == 46.0
    ensures TableDims(t).height >= 46.0
  {
  }

  function TableCenter(t: Table): (c: Point)
    ensures c.x == t.x + TableDims(t).width / 2.0
    ensures c.y == t.y + TableDims(t).height / 2.0
  {
    Point(t.x + TableDims(t).width / 2.0, t.y + TableDims(t).height / 2.0)
  }

  /** Outward unit normal of a side. */
  function Normal(side: Side): Point {
    match side
    case Left => Point(-1.0, 0.0)
    case Right => Point(1.0, 0.0)
    case Top => Point(0.0, -1.0)
    case Bottom => Point(0.0, 1.0)
  }

  /** A normal is a unit vector along one axis: horizontal for the left and
      right sides, towards growing coordinates for the right and bottom. */
  lemma NormalAxis(side: Side)
    ensures var n := Normal(side);
            Abs(n.x) + Abs(n.y) == 1.0
            && (n.y == 0.0 <==> side == Left || side == Right)
            && (n.x + n.y > 0.0 <==> side == Right || side == Bottom)
  {
  }

  /** Unit tangent of a side: along the side, perpendicular to its normal. */
  function Tangent(side: Side): (t: Point)
    ensures t.x * Normal(side).x + t.y * Normal(side).y == 0.0
    ensures Abs(t.x) + Abs(t.y) == 1.0
  {
    if side == Left || side == Right then Point(0.0, 1.0) else Point(1.0, 0.0)
  }

  predicate IsHorizontal(side: Side) {
    side == Left || side == Right
  }

  /** Where an edge label is anchored, as an SVG `text-anchor` value. */
  datatype TextAnchor = AnchorEnd | AnchorStart | AnchorMiddle

  function LabelAnchor(side: Side): (a: TextAnchor)
    ensures a == AnchorEnd <==> side == Left
    ensures a == AnchorStart <==> side == Right
  {
    match side
    case Left => AnchorEnd
    case Right => AnchorStart
    case _ => AnchorMiddle
  }

  /** The connector anchor of column `colIndex` on `side` of table `t`: on the
      left and right sides, the column's row centre clamped to the body; on the
      top and bottom sides, a point spread across the width in proportion to
      the column's position. */
  function AnchorForSide(t: Table, colIndex: int, side: Side): (p: Point)
    ensures side == Left ==> p.x == t.x
    ensures side == Right ==> p.x == t.x + TableDims(t).width
    ensures side == Top ==> p.y == t.y
    ensures side == Bottom ==> p.y == t.y + TableDims(t).height
    ensures IsHorizontal(side) && |t.columns| > 0 ==>
              t.y + 54.0 <= p.y <= t.y + TableDims(t).height - 14.0
    ensures IsHorizontal(side) && 0 <= colIndex < |t.columns| ==>
              p.y == t.y + HeaderHeight + colIndex as real * RowHeight + RowHeight / 2.0
    ensures IsHorizontal(side) && colIndex < 0 && |t.columns| > 0 ==> p.y == t.y + 54.0
    ensures !IsHorizontal(side) && TableDims(t).width >= 40.0 ==>
              t.x + 20.0 <= p.x <= t.x + TableDims(t).width - 20.0
  {
    if side == Left then Point(t.x, RowAnchorY(t, colIndex))
    else if side == Right then Point(t.x + TableDims(t).width, RowAnchorY(t, colIndex))
    else Point(SpreadAnchorX(t, colIndex), if side == Top then t.y else t.y + TableDims(t).height)
  }

  /** The row height of `getAnchorForSide`: the column's row centre, clamped
      between the first row's centre and the bottom of the body. */
  function RowAnchorY(t: Table, colIndex: int): (y: real)
    ensures |t.columns| > 0 ==> t.y + 54.0 <= y <= t.y + TableDims(t).height - 14.0
    ensures 0 <= colIndex < |t.columns| ==>
              y == t.y + HeaderHeight + colIndex as real * RowHeight + RowHeight / 2.0
    ensures colIndex < 0 && |t.columns| > 0 ==> y == t.y + 54.0
  {
    var safe := if colIndex < 0 then 0 else colIndex;
    var rawRowY := t.y + HeaderHeight + safe as real * RowHeight + RowHeight / 2.0;
    var minRowY := t.y + HeaderHeight + RowHeight / 2.0;
    var maxRowY := t.y + TableDims(t).height - RowHeight / 2.0 - 2.0;
    assert 0 <= colIndex < |t.columns| ==> safe as real <= (|t.columns| - 1) as real;
    Clamp(rawRowY, minRowY, maxRowY)
  }

  /** The horizontal position of `getAnchorForSide` on the top and bottom
      sides: the column's share of the width between two 20-unit margins. */
  function SpreadAnchorX(t: Table, colIndex: int): (x: real)
    ensures TableDims(t).width >= 40.0 ==> t.x + 20.0 <= x <= t.x + TableDims(t).width - 20.0
  {
    var safe := if colIndex < 0 then 0 else colIndex;
    var count := if |t.columns| < 1 then 1 else |t.columns|;
    var ratio := (safe as real + 0.5) / count as real;
    var minX := t.x + 20.0;
    var maxX := t.x + TableDims(t).width - 20.0;
    var r := Clamp(ratio, 0.0, 1.0);
    var span := maxX - minX;
    ScaleWithin(span, r);
    minX + span * r
  }

  lemma ScaleWithin(a: real, r: real)
    requires 0.0 <= r <= 1.0
    ensures a >= 0.0 ==> 0.0 <= a * r <= a
  {
    if a >= 0.0 {
      assert a * r <= a * 1.0;
    }
  }

  /** The pair of sides a connector between two tables leaves and enters by.
      Both sides always face each other (right/left or bottom/top); a table
      related to itself goes right to top. */
  function ChooseConnectionSides(from: Table, to: Table): (s: SidePair)
    ensures from.name == to.name ==> s == SidePair(Right, Top)
    ensures from.name != to.name ==>
              s in {SidePair(Right, Left), SidePair(Left, Right), SidePair(Bottom, Top), SidePair(Top, Bottom)}
    ensures from.name != to.name && IsHorizontal(s.fromSide) ==>
              (s.fromSide == Right <==> TableCenter(to).x >= TableCenter(from).x)
    ensures from.name != to.name && !IsHorizontal(s.fromSide) ==>
              (s.fromSide == Bottom <==> TableCenter(to).y >= TableCenter(from).y)
  {
    if from.name == to.name then SidePair(Right, Top)
    else
      var fc := TableCenter(from);
      var tc := TableCenter(to);
      var fd := TableDims(from);
      var td := TableDims(to);
      var dx := tc.x - fc.x;
      var dy := tc.y - fc.y;
      var hGap := if dx >= 0.0 then to.x - (from.x + fd.width) else from.x - (to.x + td.width);
      var vGap := if dy >= 0.0 then to.y - (from.y + fd.height) else from.y - (to.y + td.height);
      var preferH := hGap > 20.0 || (Abs(dx) >= Abs(dy) * 0.8 && hGap > -40.0);
      var preferV := vGap > 20.0 || (Abs(dy) > Abs(dx) * 0.8 && vGap > -40.0);
      var horizontal := if preferH && !preferV then true
                        else if preferV && !preferH then false
                        else Abs(dx) >= Abs(dy);
      if horizontal then (if dx >= 0.0 then SidePair(Right, Left) else SidePair(Left, Right))
      else (if dy >= 0.0 then SidePair(Bottom, Top) else SidePair(Top, Bottom))
  }

  /** The choice is symmetric: looked at from the other table (and with the
      centres apart on both axes), the same two sides are used, swapped. */
  lemma {:induction false} ChooseConnectionSidesSwap(a: Table, b: Table)
    requires a.name != b.name
    requires TableCenter(a).x != TableCenter(b).x && TableCenter(a).y != TableCenter(b).y
    ensures ChooseConnectionSides(b, a) ==
              SidePair(ChooseConnectionSides(a, b).toSide, ChooseConnectionSides(a, b).fromSide)
  {
    var fa, fb := TableDims(a), TableDims(b);
    var dx := TableCenter(b).x - TableCenter(a).x;
    var dy := TableCenter(b).y - TableCenter(a).y;
    var hGap := if dx >= 0.0 then b.x - (a.x + fa.width) else a.x - (b.x + fb.width);
    var hGap' := if -dx >= 0.0 then a.x - (b.x + fb.width) else b.x - (a.x + fa.width);
    assert hGap == hGap';
    var vGap := if dy >= 0.0 then b.y - (a.y + fa.height) else a.y - (b.y + fb.height);
    var vGap' := if -dy >= 0.0 then a.y - (b.y + fb.height) else b.y - (a.y + fa.height);
    assert vGap == vGap';
  }

  /** Anchors and sides of a connector from column `fromCol` of `from` to column
      `toCol` of `to`. */
  datatype Connection = Connection(fromPoint: Point, toPoint: Point, sides: SidePair)

  function SmartConnectionPoints(from: Table, to: Table, fromCol: int, toCol: int): (c: Connection)
    ensures c.sides == ChooseConnectionSides(from, to)
    ensures c.fromPoint == AnchorForSide(from, fromCol, c.sides.fromSide)
    ensures c.toPoint == AnchorForSide(to, toCol, c.sides.toSide)
  {
    var s := ChooseConnectionSides(from, to);
    Connection(AnchorForSide(from, fromCol, s.fromSide), AnchorForSide(to, toCol, s.toSide), s)
  }

  /** `point` moved by `distance` along `side` (along its tangent). */
  function OffsetAlongSide(p: Point, side: Side, distance: real): (q: Point)
    ensures IsHorizontal(side) ==> q.x == p.x && q.y == p.y + distance
    ensures !IsHorizontal(side) ==> q.y == p.y && q.x == p.x + distance
  {
    Point(p.x + Tangent(side).x * distance, p.y + Tangent(side).y * distance)
  }

  /** `point` moved by `distance` away from the table, along the side's normal. */
  function OffsetAlongNormal(p: Point, side: Side, distance: real): Point {
    Point(p.x + Normal(side).x * distance, p.y + Normal(side).y * distance)
  }

  /** Offset of lane `index` among `count` lanes sharing one port, `step`
      apart and centred on the port. */
  function LaneOffset(index: int, count: int, step: real): real {
    if count <= 1 then 0.0 else (index as real - (count - 1) as real / 2.0) * step
  }

  /** The lanes of one port are centred: lane i and lane count-1-i are mirror
      images, neighbouring lanes are exactly `step` apart, and a port used once
      has no offset. */
  lemma LaneOffsetsCentred(index: int, count: int, step: real)
    requires count > 1
    ensures LaneOffset(count - 1 - index, count, step) == -LaneOffset(index, count, step)
    ensures LaneOffset(index + 1, count, step) - LaneOffset(index, count, step) == step
    ensures LaneOffset(0, 1, step) == 0.0
  {
    var h := (count - 1) as real / 2.0;
    assert (count - 1 - index) as real - h == -(index as real - h);
    assert ((count - 1 - index) as real - h) * step == -((index as real - h) * step);
    assert ((index + 1) as real - h) * step == (index as real - h) * step + step;
  }

  function ManhattanDistance(a: Point, b: Point): (d: real)
    ensures d >= 0.0
    ensures d == 0.0 <==> a == b
  {
    Abs(a.x - b.x) + Abs(a.y - b.y)
  }

  // ---------------------------------------------------------------------
  // Orthogonal polylines
  // ---------------------------------------------------------------------

  const Clearance: real := 22.0
  const SelfLoop: real := 64.0

  /** `p` pushed `Clearance` units out of the table through `side`. */
  function Exit(p: Point, side: Side): Point {
    OffsetAlongNormal(p, side, Clearance)
  }

  predicate AxisAligned(ps: seq<Point>) {
    forall i :: 0 <= i < |ps| - 1 ==> ps[i].x == ps[i + 1].x || ps[i].y == ps[i + 1].y
  }

  /** The unsimplified point list of `buildOrthogonalPolyline`: out of the source
      side, one or two bends (three around a self loop), into the target side.
      Every segment is horizontal or vertical. */
  function OrthogonalRoute(start: Point, end: Point, fromSide: Side, toSide: Side, selfRef: bool): (ps: seq<Point>)
    ensures 5 <= |ps| <= 7
    ensures ps[0] == start && ps[1] == Exit(start, fromSide)
    ensures ps[|ps| - 1] == end && ps[|ps| - 2] == Exit(end, toSide)
    ensures AxisAligned(ps)
  {
    var so := Exit(start, fromSide);
    var eo := Exit(end, toSide);
    var bends :=
      if selfRef then
        if IsHorizontal(fromSide) then
          var outerX := so.x + Normal(fromSide).x * SelfLoop;
          var topY := Min(so.y, eo.y) - SelfLoop;
          [Point(outerX, so.y), Point(outerX, topY), Point(eo.x, topY)]
        else
          var outerY := so.y + Normal(fromSide).y * SelfLoop;
          var rightX := Max(so.x, eo.x) + SelfLoop;
          [Point(so.x, outerY), Point(rightX, outerY), Point(rightX, eo.y)]
      else if IsHorizontal(fromSide) && IsHorizontal(toSide) then
        var midX := (so.x + eo.x) / 2.0;
        [Point(midX, so.y), Point(midX, eo.y)]
      else if !IsHorizontal(fromSide) && !IsHorizontal(toSide) then
        var midY := (so.y + eo.y) / 2.0;
        [Point(so.x, midY), Point(eo.x, midY)]
      else
        var cornerA := Point(eo.x, so.y);
        var cornerB := Point(so.x, eo.y);
        var costA := ManhattanDistance(so, cornerA) + ManhattanDistance(cornerA, eo);
        var costB := ManhattanDistance(so, cornerB) + ManhattanDistance(cornerB, eo);
        [if costA <= costB then cornerA else cornerB];
    [start, so] + bends + [eo, end]
  }

  /** With one horizontal and one vertical side both corners cost the same
      Manhattan distance, so the corner on the source's row (cornerA) is always
      the one taken. */
  lemma MixedRouteTakesCornerA(start: Point, end: Point, fromSide: Side, toSide: Side)
    requires IsHorizontal(fromSide) != IsHorizontal(toSide)
    ensures var ps := OrthogonalRoute(start, end, fromSide, toSide, false);
            |ps| == 5 && ps[2] == Point(Exit(end, toSide).x, Exit(start, fromSide).y)
  {
  }

  /** A point as it reaches `simplifyOrthogonalPoints`: a finite point, or
      something that is not one (missing, NaN or infinite). */
  datatype RawPoint = Finite(p: Point) | NonFinite

  const Epsilon: real := 0.1

  /** The coordinate has at most two decimals. */
  predicate IsCentesimal(v: real) {
    (v * 100.0).Floor as real == v * 100.0
  }

  /** `Math.round(v * 100) / 100`. */
  function Round2(v: real): (r: real)
    ensures IsCentesimal(r)
    ensures v - 0.005 < r <= v + 0.005
  {
    var k := (v * 100.0 + 0.5).Floor;
    assert (k as real / 100.0) * 100.0 == k as real;
    k as real / 100.0
  }

  function Normalize(p: Point): Point {
    Point(Round2(p.x), Round2(p.y))
  }

  predicate Near(a: Point, b: Point) {
    Abs(a.x - b.x) < Epsilon && Abs(a.y - b.y) < Epsilon
  }

  /** Three consecutive points on one vertical or one horizontal line. */
  predicate Straight(a: Point, b: Point, c: Point) {
    (Abs(a.x - b.x) < Epsilon && Abs(b.x - c.x) < Epsilon)
    || (Abs(a.y - b.y) < Epsilon && Abs(b.y - c.y) < Epsilon)
  }

  predicate NoStraightTriple(r: seq<Point>) {
    forall i :: 0 <= i < |r| - 2 ==> !Straight(r[i], r[i + 1], r[i + 2])
  }

  /** The `while` of `simplifyOrthogonalPoints`: drop the middle of the last
      three points while they are straight. */
  function Collapse(r: seq<Point>): (c: seq<Point>)
    ensures |c| <= |r|
    ensures forall q :: q in c ==> q in r
    ensures |r| > 0 ==> |c| > 0 && c[|c| - 1] == r[|r| - 1]
    decreases |r|
  {
    if |r| >= 3 && Straight(r[|r| - 3], r[|r| - 2], r[|r| - 1]) then
      Collapse(r[..|r| - 2] + [r[|r| - 1]])
    else r
  }

  /** One iteration of the `for` of `simplifyOrthogonalPoints`. */
  function Absorb(r: seq<Point>, q: RawPoint): seq<Point> {
    match q
    case NonFinite => r
    case Finite(p) =>
      var n := Normalize(p);
      if |r| > 0 && Near(r[|r| - 1], n) then r else Collapse(r + [n])
  }

  /** The result of `simplifyOrthogonalPoints(points)`. */
  function Simplified(points: seq<RawPoint>): seq<Point>
    decreases |points|
  {
    if |points| == 0 then [] else Absorb(Simplified(points[..|points| - 1]), points[|points| - 1])
  }

  /** The rounded images of the finite input points. */
  function RoundedInputs(points: seq<RawPoint>): set<Point> {
    set i | 0 <= i < |points| && points[i].Finite? :: Normalize(points[i].p)
  }

  lemma {:induction false} CollapseStraightens(r: seq<Point>)
    requires |r| > 0 && NoStraightTriple(r[..|r| - 1])
    ensures NoStraightTriple(Collapse(r))
    decreases |r|
  {
    if |r| >= 3 && Straight(r[|r| - 3], r[|r| - 2], r[|r| - 1]) {
      var r' := r[..|r| - 2] + [r[|r| - 1]];
      assert r'[..|r'| - 1] == r[..|r| - 1][..|r| - 2];
      assert NoStraightTriple(r'[..|r'| - 1]) by {
        forall i | 0 <= i < |r'| - 3
          ensures !Straight(r'[i], r'[i + 1], r'[i + 2])
        {
          assert r'[i] == r[..|r| - 1][i] && r'[i + 1] == r[..|r| - 1][i + 1] && r'[i + 2] == r[..|r| - 1][i + 2];
        }
      }
      CollapseStraightens(r');
    } else {
      forall i | 0 <= i < |r| - 2
        ensures !Straight(r[i], r[i + 1], r[i + 2])
      {
        if i < |r| - 3 {
          assert r[i] == r[..|r| - 1][i] && r[i + 1] == r[..|r| - 1][i + 1] && r[i + 2] == r[..|r| - 1][i + 2];
        }
      }
    }
  }

  /** What `simplifyOrthogonalPoints` guarantees: every kept point is the
      two-decimal rounding of a finite input point (non-finite ones are
      dropped), no three consecutive kept points lie on one vertical or
      horizontal line, and the list never grows. */
  lemma {:induction false} SimplifiedProperties(points: seq<RawPoint>)
    ensures |Simplified(points)| <= |points|
    ensures NoStraightTriple(Simplified(points))
    ensures forall q :: q in Simplified(points) ==> q in RoundedInputs(points)
    ensures forall q :: q in Simplified(points) ==> IsCentesimal(q.x) && IsCentesimal(q.y)
    decreases |points|
  {
    if |points| > 0 {
      var init := points[..|points| - 1];
      SimplifiedProperties(init);
      RoundedInputsGrow(points);
      AbsorbKeeps(Simplified(init), points);
    }
  }

  lemma RoundedInputsGrow(points: seq<RawPoint>)
    requires |points| > 0
    ensures forall q :: q in RoundedInputs(points[..|points| - 1]) ==> q in RoundedInputs(points)
  {
    var init := points[..|points| - 1];
    forall q | q in RoundedInputs(init) ensures q in RoundedInputs(points) {
      var i :| 0 <= i < |init| && init[i].Finite? && q == Normalize(init[i].p);
      assert points[i] == init[i];
    }
  }

  /** One `Absorb` of the last input point keeps the properties of
      `SimplifiedProperties`. */
  lemma AbsorbKeeps(r: seq<Point>, points: seq<RawPoint>)
    requires |points| > 0
    requires NoStraightTriple(r)
    requires forall q :: q in r ==> q in RoundedInputs(points) && IsCentesimal(q.x) && IsCentesimal(q.y)
    ensures |Absorb(r, points[|points| - 1])| <= |r| + 1
    ensures NoStraightTriple(Absorb(r, points[|points| - 1]))
    ensures forall q :: q in Absorb(r, points[|points| - 1]) ==> q in RoundedInputs(points) && IsCentesimal(q.x) && IsCentesimal(q.y)
  {
    var last := points[|points| - 1];
    match last
    case NonFinite =>
    case Finite(p) =>
      var n := Normalize(p);
      if !(|r| > 0 && Near(r[|r| - 1], n)) {
        assert (r + [n])[..|r + [n]| - 1] == r;
        CollapseStraightens(r + [n]);
        assert n in RoundedInputs(points);
      }
  }

  /** `simplifyOrthogonalPoints`. */
  method SimplifyOrthogonalPoints(points: seq<RawPoint>) returns (result: seq<Point>)
    ensures result == Simplified(points)
    ensures |result| <= |points|
    ensures NoStraightTriple(result)
    ensures forall q :: q in result ==> q in RoundedInputs(points)
    ensures forall q :: q in result ==> IsCentesimal(q.x) && IsCentesimal(q.y)
  {
    result := [];
    var i := 0;
    while i < |points|
      invariant 0 <= i <= |points|
      invariant result == Simplified(points[..i])
    {
      assert points[..i + 1][..i] == points[..i];
      match points[i] {
        case NonFinite =>
        case Finite(p) =>
          var n := Normalize(p);
          if !(|result| > 0 && Near(result[|result| - 1], n)) {
            ghost var pushed := result + [n];
            result := result + [n];
            while |result| >= 3
              invariant |result| >= 1
              invariant Collapse(result) == Collapse(pushed)
              decreases |result|
            {
              var a, b, c := result[|result| - 3], result[|result| - 2], result[|result| - 1];
              if !Straight(a, b, c) {
                break;
              }
              result := result[..|result| - 2] + [result[|result| - 1]];
            }
          }
      }
      i := i + 1;
    }
    assert points[..|points|] == points;
    SimplifiedProperties(points);
  }

  function AsRaw(ps: seq<Point>): (r: seq<RawPoint>)
    ensures |r| == |ps|
    ensures forall i :: 0 <= i < |ps| ==> r[i] == Finite(ps[i])
  {
    seq(|ps|, i requires 0 <= i < |ps| => Finite(ps[i]))
  }

  /** `buildOrthogonalPolyline`: the simplified orthogonal route. */
  method BuildOrthogonalPolyline(start: Point, end: Point, fromSide: Side, toSide: Side, selfRef: bool)
    returns (ps: seq<Point>)
    ensures ps == Simplified(AsRaw(OrthogonalRoute(start, end, fromSide, toSide, selfRef)))
    ensures |ps| <= 7 && NoStraightTriple(ps)
  {
    ps := SimplifyOrthogonalPoints(AsRaw(OrthogonalRoute(start, end, fromSide, toSide, selfRef)));
  }

  // ---------------------------------------------------------------------
  // Overlap resolution
  // ---------------------------------------------------------------------

  const OverlapPadding: real := 35.0

  /** `getTableRect`: the table's box grown by `padding` on every side. */
  function TableRect(t: Table, padding: real): (r: Rect)
    ensures r.x == t.x - padding && r.y == t.y - padding
    ensures r.width == TableDims(t).width + 2.0 * padding
    ensures r.height == TableDims(t).height + 2.0 * padding
  {
    Rect(t.x - padding, t.y - padding, TableDims(t).width + padding * 2.0, TableDims(t).height + padding * 2.0)
  }

  /** Strict overlap of two rectangles: touching edges do not overlap. */
  predicate RectsOverlap(a: Rect, b: Rect) {
    a.x < b.x + b.width && a.x + a.width > b.x && a.y < b.y + b.height && a.y + a.height > b.y
  }

  lemma RectsOverlapSymmetric(a: Rect, b: Rect)
    ensures RectsOverlap(a, b) <==> RectsOverlap(b, a)
  {
  }

  predicate TablesOverlap(a: Table, b: Table) {
    RectsOverlap(TableRect(a, OverlapPadding), TableRect(b, OverlapPadding))
  }

  function MoveTo(t: Table, x: real, y: real): Table {
    t.(x := x, y := y)
  }

  /** One push of `resolveTableOverlaps` on an overlapping pair: both tables
      move by the same amount in opposite directions along the axis of the
      smaller overlap, away from each other. */
  function PushApart(a: Table, b: Table): (Table, Table)
    requires TablesOverlap(a, b)
  {
    var ra := TableRect(a, OverlapPadding);
    var rb := TableRect(b, OverlapPadding);
    var overlapX := Min(ra.x + ra.width - rb.x, rb.x + rb.width - ra.x);
    var overlapY := Min(ra.y + ra.height - rb.y, rb.y + rb.height - ra.y);
    if overlapX < overlapY then
      var push := overlapX / 2.0 + 1.0;
      if a.x <= b.x then (MoveTo(a, a.x - push, a.y), MoveTo(b, b.x + push, b.y))
      else (MoveTo(a, a.x + push, a.y), MoveTo(b, b.x - push, b.y))
    else
      var push := overlapY / 2.0 + 1.0;
      if a.y <= b.y then (MoveTo(a, a.x, a.y - push), MoveTo(b, b.x, b.y + push))
      else (MoveTo(a, a.x, a.y + push), MoveTo(b, b.x, b.y - push))
  }

  /** A push moves only the two positions, by equal and opposite amounts
      along one axis, and never brings the two tables closer on either axis. */
  lemma PushApartMoves(a: Table, b: Table)
    requires TablesOverlap(a, b)
    ensures var r := PushApart(a, b);
            r.0 == MoveTo(a, r.0.x, r.0.y) && r.1 == MoveTo(b, r.1.x, r.1.y)
            && r.0.x + r.1.x == a.x + b.x && r.0.y + r.1.y == a.y + b.y
            && ((r.0.x == a.x && r.1.x == b.x) || (r.0.y == a.y && r.1.y == b.y))
            && (r.0.x, r.0.y) != (a.x, a.y)
            && Abs(r.1.x - r.0.x) >= Abs(b.x - a.x) && Abs(r.1.y - r.0.y) >= Abs(b.y - a.y)
  {
  }

  /** The inner body of `resolveTableOverlaps` for the pair (i, j). */
  function PairStep(ts: seq<Table>, i: nat, j: nat): (r: (seq<Table>, bool))
    requires i < j < |ts|
    ensures |r.0| == |ts|
    ensures r.1 == TablesOverlap(ts[i], ts[j])
    ensures !r.1 ==> r.0 == ts
  {
    if TablesOverlap(ts[i], ts[j]) then
      var p := PushApart(ts[i], ts[j]);
      (ts[i := p.0][j := p.1], true)
    else (ts, false)
  }

  /** The rest of one pass of `resolveTableOverlaps`, starting at pair (i, j);
      returns the tables and whether anything moved. */
  function PassFrom(ts: seq<Table>, i: nat, j: nat, moved: bool): (r: (seq<Table>, bool))
    requires i < j
    ensures |r.0| == |ts|
    decreases |ts| - i, |ts| - j
  {
    if i >= |ts| then (ts, moved)
    else if j >= |ts| then PassFrom(ts, i + 1, i + 2, moved)
    else
      var s := PairStep(ts, i, j);
      PassFrom(s.0, i, j + 1, moved || s.1)
  }

  const MaxPasses: nat := 60

  /** Passes from pass number `iter` on, until one moves nothing or 60 have
      run; returns the tables and the number of passes run in total. */
  function ResolveFrom(ts: seq<Table>, iter: nat): (r: (seq<Table>, nat))
    requires iter <= MaxPasses
    ensures |r.0| == |ts|
    ensures iter <= r.1 <= MaxPasses
    decreases MaxPasses - iter
  {
    if iter == MaxPasses then (ts, iter)
    else
      var p := PassFrom(ts, 0, 1, false);
      if !p.1 then (p.0, iter + 1) else ResolveFrom(p.0, iter + 1)
  }

  predicate NoOverlaps(ts: seq<Table>) {
    forall i, j :: 0 <= i < j < |ts| ==> !TablesOverlap(ts[i], ts[j])
  }

  /** Only positions differ between `a` and `b`. */
  predicate SameButPositions(a: seq<Table>, b: seq<Table>) {
    |a| == |b| && forall k :: 0 <= k < |a| ==> b[k] == MoveTo(a[k], b[k].x, b[k].y)
  }

  function SumX(ts: seq<Table>): real {
    if |ts| == 0 then 0.0 else SumX(ts[..|ts| - 1]) + ts[|ts| - 1].x
  }

  function SumY(ts: seq<Table>): real {
    if |ts| == 0 then 0.0 else SumY(ts[..|ts| - 1]) + ts[|ts| - 1].y
  }

  lemma {:induction false} SumUpdate(ts: seq<Table>, i: nat, t: Table)
    requires i < |ts|
    ensures SumX(ts[i := t]) == SumX(ts) - ts[i].x + t.x
    ensures SumY(ts[i := t]) == SumY(ts) - ts[i].y + t.y
    decreases |ts|
  {
    var n := |ts| - 1;
    if i < n {
      assert ts[i := t][..n] == ts[..n][i := t];
      SumUpdate(ts[..n], i, t);
    } else {
      assert ts[i := t][..n] == ts[..n];
    }
  }

  lemma SameButPositionsTrans(a: seq<Table>, b: seq<Table>, c: seq<Table>)
    requires SameButPositions(a, b) && SameButPositions(b, c)
    ensures SameButPositions(a, c)
  {
  }

  lemma PairStepPreserves(ts: seq<Table>, i: nat, j: nat)
    requires i < j < |ts|
    ensures SameButPositions(ts, PairStep(ts, i, j).0)
    ensures SumX(PairStep(ts, i, j).0) == SumX(ts) && SumY(PairStep(ts, i, j).0) == SumY(ts)
  {
    if TablesOverlap(ts[i], ts[j]) {
      var p := PushApart(ts[i], ts[j]);
      PushApartMoves(ts[i], ts[j]);
      assert PairStep(ts, i, j).0 == ts[i := p.0][j := p.1];
      PairUpdate(ts, i, j, p.0, p.1);
    }
  }

  /** Moving two tables of a list by equal and opposite amounts keeps
      everything but positions and keeps both coordinate sums. */
  lemma PairUpdate(ts: seq<Table>, i: nat, j: nat, a: Table, b: Table)
    requires i < j < |ts|
    requires a == MoveTo(ts[i], a.x, a.y) && b == MoveTo(ts[j], b.x, b.y)
    requires a.x + b.x == ts[i].x + ts[j].x && a.y + b.y == ts[i].y + ts[j].y
    ensures SameButPositions(ts, ts[i := a][j := b])
    ensures SumX(ts[i := a][j := b]) == SumX(ts) && SumY(ts[i := a][j := b]) == SumY(ts)
  {
    var u := ts[i := a];
    assert u[j] == ts[j];
    SumUpdate(ts, i, a);
    SumUpdate(u, j, b);
  }

  /** A pass moves tables but keeps everything else, and keeps the sum of the
      x and of the y coordinates (every push is equal and opposite). */
  lemma PassFromPreserves(ts: seq<Table>, i: nat, j: nat, moved: bool)
    requires i < j
    ensures SameButPositions(ts, PassFrom(ts, i, j, moved).0)
    ensures SumX(PassFrom(ts, i, j, moved).0) == SumX(ts)
    ensures SumY(PassFrom(ts, i, j, moved).0) == SumY(ts)
  {
    PassFromSame(ts, i, j, moved);
    PassFromSums(ts, i, j, moved);
  }

  lemma {:induction false} PassFromSame(ts: seq<Table>, i: nat, j: nat, moved: bool)
    requires i < j
    ensures SameButPositions(ts, PassFrom(ts, i, j, moved).0)
    decreases |ts| - i, |ts| - j, 1
  {
    if i >= |ts| {
    } else if j >= |ts| {
      PassFromSame(ts, i + 1, i + 2, moved);
    } else {
      PairSame(ts, i, j, moved);
    }
  }

  lemma {:induction false} PairSame(ts: seq<Table>, i: nat, j: nat, moved: bool)
    requires i < j < |ts|
    ensures SameButPositions(ts, PassFrom(ts, i, j, moved).0)
    decreases |ts| - i, |ts| - j, 0
  {
    var s := PairStep(ts, i, j);
    PassFromStep(ts, i, j, moved);
    PairStepPreserves(ts, i, j);
    PassFromSame(s.0, i, j + 1, moved || s.1);
    SameButPositionsTrans(ts, s.0, PassFrom(s.0, i, j + 1, moved || s.1).0);
  }

  lemma {:induction false} PassFromSums(ts: seq<Table>, i: nat, j: nat, moved: bool)
    requires i < j
    ensures SumX(PassFrom(ts, i, j, moved).0) == SumX(ts)
    ensures SumY(PassFrom(ts, i, j, moved).0) == SumY(ts)
    decreases |ts| - i, |ts| - j, 1
  {
    if i >= |ts| {
    } else if j >= |ts| {
      PassFromSums(ts, i + 1, i + 2, moved);
    } else {
      PairSums(ts, i, j, moved);
    }
  }

  lemma {:induction false} PairSums(ts: seq<Table>, i: nat, j: nat, moved: bool)
    requires i < j < |ts|
    ensures SumX(PassFrom(ts, i, j, moved).0) == SumX(ts)
    ensures SumY(PassFrom(ts, i, j, moved).0) == SumY(ts)
    decreases |ts| - i, |ts| - j, 0
  {
    var s := PairStep(ts, i, j);
    PassFromStep(ts, i, j, moved);
    PairStepPreserves(ts, i, j);
    PassFromSums(s.0, i, j + 1, moved || s.1);
  }

  lemma PassFromStep(ts: seq<Table>, i: nat, j: nat, moved: bool)
    requires i < j < |ts|
    ensures PassFrom(ts, i, j, moved) == PassFrom(PairStep(ts, i, j).0, i, j + 1, moved || PairStep(ts, i, j).1)
  {
  }

  lemma PassFromRowEnd(ts: seq<Table>, i: nat, j: nat, moved: bool)
    requires i < j && |ts| <= j
    ensures PassFrom(ts, i, j, moved) == PassFrom(ts, i + 1, i + 2, moved)
  {
  }

  /** Pairs that a pass still visits when it stands at (i, j). */
  predicate Ahead(i: nat, j: nat, p: nat, q: nat) {
    p > i || (p == i && q >= j)
  }

  /** A pass that reports no movement left everything in place, and no pair
      it visited overlapped. */
  lemma {:induction false} PassFromQuiet(ts: seq<Table>, i: nat, j: nat)
    requires i < j
    requires !PassFrom(ts, i, j, false).1
    ensures PassFrom(ts, i, j, false).0 == ts
    ensures forall p, q :: 0 <= p < q < |ts| && Ahead(i, j, p, q) ==> !TablesOverlap(ts[p], ts[q])
    decreases |ts| - i, |ts| - j, 1
  {
    if i >= |ts| {
    } else if j >= |ts| {
      PassFromQuiet(ts, i + 1, i + 2);
    } else {
      PairQuiet(ts, i, j);
    }
  }

  lemma {:induction false} PairQuiet(ts: seq<Table>, i: nat, j: nat)
    requires i < j < |ts|
    requires !PassFrom(ts, i, j, false).1
    ensures PassFrom(ts, i, j, false).0 == ts
    ensures forall p, q :: 0 <= p < q < |ts| && Ahead(i, j, p, q) ==> !TablesOverlap(ts[p], ts[q])
    decreases |ts| - i, |ts| - j, 0
  {
    var s := PairStep(ts, i, j);
    PassFromStep(ts, i, j, false);
    PassMovedSticks(s.0, i, j + 1, s.1);
    PassFromQuiet(s.0, i, j + 1);
  }

  lemma {:induction false} PassMovedSticks(ts: seq<Table>, i: nat, j: nat, moved: bool)
    requires i < j
    ensures moved ==> PassFrom(ts, i, j, moved).1
    decreases |ts| - i, |ts| - j
  {
    if i >= |ts| {
    } else if j >= |ts| {
      PassMovedSticks(ts, i + 1, i + 2, moved);
    } else {
      var s := PairStep(ts, i, j);
      PassMovedSticks(s.0, i, j + 1, moved || s.1);
    }
  }

  /** `resolveTableOverlaps` keeps everything but positions and the coordinate
      sums, runs at most 60 passes, and when it stops before the 60th pass no
      two padded boxes overlap any more. */
  lemma {:induction false} ResolveFromProperties(ts: seq<Table>, iter: nat)
    requires iter <= MaxPasses
    ensures SameButPositions(ts, ResolveFrom(ts, iter).0)
    ensures SumX(ResolveFrom(ts, iter).0) == SumX(ts) && SumY(ResolveFrom(ts, iter).0) == SumY(ts)
    ensures ResolveFrom(ts, iter).1 < MaxPasses ==> NoOverlaps(ResolveFrom(ts, iter).0)
    decreases MaxPasses - iter, 1
  {
    if iter < MaxPasses {
      if !PassFrom(ts, 0, 1, false).1 {
        QuietPassDone(ts);
        assert ResolveFrom(ts, iter) == (ts, iter + 1);
      } else {
        ResolveMoved(ts, iter);
      }
    }
  }

  /** The case of `ResolveFromProperties` where the pass moved something. */
  lemma {:induction false} ResolveMoved(ts: seq<Table>, iter: nat)
    requires iter < MaxPasses
    requires PassFrom(ts, 0, 1, false).1
    ensures SameButPositions(ts, ResolveFrom(ts, iter).0)
    ensures SumX(ResolveFrom(ts, iter).0) == SumX(ts) && SumY(ResolveFrom(ts, iter).0) == SumY(ts)
    ensures ResolveFrom(ts, iter).1 < MaxPasses ==> NoOverlaps(ResolveFrom(ts, iter).0)
    decreases MaxPasses - iter, 0
  {
    var p := PassFrom(ts, 0, 1, false);
    PassFromPreserves(ts, 0, 1, false);
    assert ResolveFrom(ts, iter) == ResolveFrom(p.0, iter + 1);
    ResolveFromProperties(p.0, iter + 1);
    SameButPositionsTrans(ts, p.0, ResolveFrom(p.0, iter + 1).0);
  }

  /** A first pass that moves nothing leaves the tables as they are, with no
      overlapping pair. */
  lemma QuietPassDone(ts: seq<Table>)
    requires !PassFrom(ts, 0, 1, false).1
    ensures PassFrom(ts, 0, 1, false).0 == ts
    ensures SameButPositions(ts, ts)
    ensures NoOverlaps(ts)
  {
    PassFromQuiet(ts, 0, 1);
    forall p, q | 0 <= p < q < |ts| ensures !TablesOverlap(ts[p], ts[q]) {
      assert Ahead(0, 1, p, q);
    }
  }

  /** One pass of `resolveTableOverlaps`: every pair i < j in order, pushing
      apart the ones that overlap. */
  method OverlapPass(ts: seq<Table>) returns (r: seq<Table>, moved: bool)
    ensures (r, moved) == PassFrom(ts, 0, 1, false)
  {
    r := ts;
    moved := false;
    var i := 0;
    while i < |r|
      invariant |r| == |ts|
      invariant PassFrom(r, i, i + 1, moved) == PassFrom(ts, 0, 1, false)
    {
      r, moved := PassRow(r, i, moved);
      i := i + 1;
    }
  }

  /** The inner loop of a pass: every pair (i, j) with j > i. */
  method PassRow(ts: seq<Table>, i: nat, moved: bool) returns (r: seq<Table>, moved': bool)
    requires i < |ts|
    ensures |r| == |ts|
    ensures PassFrom(r, i + 1, i + 2, moved') == PassFrom(ts, i, i + 1, moved)
  {
    r, moved' := ts, moved;
    var j := i + 1;
    while j < |r|
      invariant i < j
      invariant |r| == |ts|
      invariant PassFrom(r, i, j, moved') == PassFrom(ts, i, i + 1, moved)
    {
      PassFromStep(r, i, j, moved');
      var hit;
      r, hit := PushPair(r, i, j);
      moved' := moved' || hit;
      j := j + 1;
    }
    PassFromRowEnd(r, i, j, moved');
  }

  /** The inner step of a pass: pushes the pair (i, j) apart when their
      padded boxes overlap. */
  method PushPair(ts: seq<Table>, i: nat, j: nat) returns (r: seq<Table>, hit: bool)
    requires i < j < |ts|
    ensures (r, hit) == PairStep(ts, i, j)
  {
    r, hit := ts, false;
    var a, b := ts[i], ts[j];
    if TablesOverlap(a, b) {
      var p := PushApart(a, b);
      r := ts[i := p.0][j := p.1];
      hit := true;
    }
  }

  /** `resolveTableOverlaps`, on the table list it rewrites; also returns the
      number of passes it ran. */
  method ResolveTableOverlaps(tables: seq<Table>) returns (r: seq<Table>, passes: nat)
    ensures (r, passes) == ResolveFrom(tables, 0)
    ensures SameButPositions(tables, r)
    ensures SumX(r) == SumX(tables) && SumY(r) == SumY(tables)
    ensures passes <= MaxPasses
    ensures passes < MaxPasses ==> NoOverlaps(r)
  {
    r := tables;
    passes := 0;
    while passes < MaxPasses
      invariant passes <= MaxPasses
      invariant ResolveFrom(r, passes) == ResolveFrom(tables, 0)
    {
      var moved;
      r, moved := OverlapPass(r);
      passes := passes + 1;
      if !moved {
        break;
      }
    }
    ResolveFromProperties(tables, 0);
  }

  // ---------------------------------------------------------------------
  // Points and tables
  // ---------------------------------------------------------------------

  /** Midpoint of a side of the table's box. */
  function BoundaryAnchor(t: Table, side: Side): (p: Point)
    ensures side == Left ==> p == Point(t.x, TableCenter(t).y)
    ensures side == Right ==> p == Point(t.x + TableDims(t).width, TableCenter(t).y)
    ensures side == Top ==> p == Point(TableCenter(t).x, t.y)
    ensures side == Bottom ==> p == Point(TableCenter(t).x, t.y + TableDims(t).height)
  {
    var d := TableDims(t);
    match side
    case Left => Point(t.x, t.y + d.height / 2.0)
    case Right => Point(t.x + d.width, t.y + d.height / 2.0)
    case Top => Point(t.x + d.width / 2.0, t.y)
    case Bottom => Point(t.x + d.width / 2.0, t.y + d.height)
  }

  /** The side of `t` that faces `p`: the dominant axis of the offset from the
      centre (ties go horizontal), then its sign (zero counts as positive). */
  function ChooseSideToPoint(t: Table, p: Point): (s: Side)
    ensures var dx, dy := p.x - TableCenter(t).x, p.y - TableCenter(t).y;
            (IsHorizontal(s) <==> Abs(dx) >= Abs(dy))
            && (s == Right ==> dx >= 0.0) && (s == Left ==> dx < 0.0)
            && (s == Bottom ==> dy >= 0.0) && (s == Top ==> dy < 0.0)
  {
    var c := TableCenter(t);
    var dx := p.x - c.x;
    var dy := p.y - c.y;
    if Abs(dx) >= Abs(dy) then (if dx >= 0.0 then Right else Left)
    else (if dy >= 0.0 then Bottom else Top)
  }

  /** The table's box, edges included, holds `p`. */
  predicate ContainsPoint(t: Table, p: Point) {
    t.x <= p.x <= t.x + TableDims(t).width && t.y <= p.y <= t.y + TableDims(t).height
  }

  /** The topmost table under `p`: the last in list order whose box holds it. */
  function TopmostAt(tables: seq<Table>, p: Point): (r: Option<nat>)
    ensures r.Some? ==> r.value < |tables| && ContainsPoint(tables[r.value], p)
    ensures r.Some? ==> forall k :: r.value < k < |tables| ==> !ContainsPoint(tables[k], p)
    ensures r.None? ==> forall k :: 0 <= k < |tables| ==> !ContainsPoint(tables[k], p)
    decreases |tables|
  {
    if |tables| == 0 then None
    else if ContainsPoint(tables[|tables| - 1], p) then Some(|tables| - 1)
    else TopmostAt(tables[..|tables| - 1], p)
  }

  /** `findTableAtWorldPoint`: scans from the end of the list. */
  method FindTableAtWorldPoint(tables: seq<Table>, p: Point) returns (r: Option<nat>)
    ensures r == TopmostAt(tables, p)
    ensures r.Some? ==> r.value < |tables| && ContainsPoint(tables[r.value], p)
    ensures r.Some? ==> forall k :: r.value < k < |tables| ==> !ContainsPoint(tables[k], p)
    ensures r.None? ==> forall k :: 0 <= k < |tables| ==> !ContainsPoint(tables[k], p)
  {
    var i := |tables|;
    while i > 0
      invariant 0 <= i <= |tables|
      invariant TopmostAt(tables[..i], p) == TopmostAt(tables, p)
    {
      var t := tables[i - 1];
      if ContainsPoint(t, p) {
        return Some(i - 1);
      }
      assert tables[..i][..i - 1] == tables[..i - 1];
      i := i - 1;
    }
    return None;
  }
}
