/** The RADOLAN grid and its polar stereographic coordinate system
    (include/radolan/coordinatesystem.h, src/coordinatesystem.cpp): point records,
    the quadrant of a grid point relative to the origin cell, the grid-to-cartesian map
    and its inverse, the cell polygon, and the class that holds a product's grid layout. */
module Coordinates {
  import opened RadolanTypes

  /** A geographical point in radians. */
  datatype GeographicalPointRad = GeographicalPointRad(latitude: real, longitude: real)

  /** A geographical point in degrees. */
  datatype GeographicalPoint = GeographicalPoint(latitude: real, longitude: real)

  /** A point of the polar stereographic plane, in kilometres. */
  datatype CartesianPoint = CartesianPoint(x: real, y: real)

  /** A grid cell by column and row. */
  datatype GridPoint = GridPoint(ix: int, iy: int)

  const GRID_POINT_UNDEFINED: GridPoint := GridPoint(-1, -1)

  /** The quadrants around the origin cell, numbered 0..3 counter-clockwise from lower left. */
  datatype Quadrant = LowerLeft | UpperLeft | UpperRight | LowerRight

  const PI: real := 3.14159265358979323846264338327950288
  const MESH_WIDTH: real := 1.0

  /** rdGeographicalPointRad and rdGeographicalPoint take the longitude first, the reverse of
      the field order, and store both as given. */
  function MakeGeographicalPointRad(longitude: real, latitude: real): (p: GeographicalPointRad)
    ensures p.longitude == longitude && p.latitude == latitude
  {
    GeographicalPointRad(latitude := latitude, longitude := longitude)
  }

  function MakeGeographicalPoint(longitude: real, latitude: real): (p: GeographicalPoint)
    ensures p.longitude == longitude && p.latitude == latitude
  {
    GeographicalPoint(latitude := latitude, longitude := longitude)
  }

  /** The four RDEquals overloads: field by field. */
  predicate EqualGeographicalRad(a: GeographicalPointRad, b: GeographicalPointRad) {
    a.latitude == b.latitude && a.longitude == b.longitude
  }

  predicate EqualGeographical(a: GeographicalPoint, b: GeographicalPoint) {
    a.latitude == b.latitude && a.longitude == b.longitude
  }

  predicate EqualCartesian(a: CartesianPoint, b: CartesianPoint) {
    a.x == b.x && a.y == b.y
  }

  predicate EqualGrid(a: GridPoint, b: GridPoint) {
    a.ix == b.ix && a.iy == b.iy
  }

  /** Field-by-field equality is equality of the points, so RDEquals is an equivalence and
      two points built from the same coordinates are equal. */
  lemma EqualsIsPointEquality(a: GeographicalPointRad, b: GeographicalPointRad, c: GeographicalPoint, d: GeographicalPoint,
                              e: CartesianPoint, f: CartesianPoint, g: GridPoint, h: GridPoint)
    ensures EqualGeographicalRad(a, b) <==> a == b
    ensures EqualGeographical(c, d) <==> c == d
    ensures EqualCartesian(e, f) <==> e == f
    ensures EqualGrid(g, h) <==> g == h
  {
  }

  /** Index of a grid point in a row-major data array with dimLon columns. */
  function CellIndex(dimLon: int, p: GridPoint): int {
    p.iy * dimLon + p.ix
  }

  /** A grid point inside a dimLon x dimLat grid indexes inside the data array. */
  lemma CellIndexInBounds(dimLon: int, dimLat: int, p: GridPoint)
    requires 0 <= p.ix < dimLon && 0 <= p.iy < dimLat
    ensures 0 <= CellIndex(dimLon, p) < dimLon * dimLat
  {
    assert p.iy * dimLon <= (dimLat - 1) * dimLon by {
      assert p.iy <= dimLat - 1;
    }
  }

  /** The converse fails: a column one past the last one still indexes inside the array,
      namely the first cell of the next row. */
  lemma CellIndexWrapsRows(dimLon: int, dimLat: int)
    requires dimLon > 0 && dimLat > 1
    ensures 0 <= CellIndex(dimLon, GridPoint(dimLon, 0)) < dimLon * dimLat
    ensures CellIndex(dimLon, GridPoint(dimLon, 0)) == CellIndex(dimLon, GridPoint(0, 1))
  {
    assert dimLon * dimLat >= dimLon * 2 by {
      assert dimLat >= 2;
    }
  }

  /** The undefined grid point lies outside every grid. */
  lemma UndefinedIsOutside(horizontal: int, vertical: int)
    ensures !(0 <= GRID_POINT_UNDEFINED.ix < horizontal && 0 <= GRID_POINT_UNDEFINED.iy < vertical)
  {
  }

  function Rad(deg: real): real {
    deg * PI / 180.0
  }

  function Deg(rad: real): real {
    rad * 180.0 / PI
  }

  function ToRad(p: GeographicalPoint): GeographicalPointRad {
    GeographicalPointRad(latitude := Rad(p.latitude), longitude := Rad(p.longitude))
  }

  function ToDeg(p: GeographicalPointRad): GeographicalPoint {
    GeographicalPoint(latitude := Deg(p.latitude), longitude := Deg(p.longitude))
  }

  /** Degrees and radians convert into each other without loss (over the reals). */
  lemma DegreeConversionsAreInverse(p: GeographicalPoint, q: GeographicalPointRad)
    ensures ToDeg(ToRad(p)) == p
    ensures ToRad(ToDeg(q)) == q
    ensures Rad(180.0) == PI
  {
  }

  /** The layout of a product's grid: cell counts, the geographical origin and the offset of
      the origin cell from the lower-left corner. */
  datatype GridInfo = GridInfo(horizontal: int, vertical: int, originGeographical: GeographicalPoint, offset: CartesianPoint)

  function GridInfoOf(t: ScanType): (g: GridInfo)
    ensures g.originGeographical == GeographicalPoint(latitude := 51.0, longitude := 9.0)
    ensures g.offset.x == (g.horizontal / 2 + if t in {EX, TH, TZ} then -100 else 0) as real
    ensures g.offset.y == (g.vertical / 2 + if t in {EX, TH, TZ} then 50 else 0) as real
    ensures t in {EX, TH, TZ} <==> g.horizontal == 1400
    ensures t in {EX, TH, TZ} <==> g.vertical == 1500
  {
    if t in {EX, TH, TZ} then
      GridInfo(1400, 1500, GeographicalPoint(latitude := 51.0, longitude := 9.0), CartesianPoint(600.0, 800.0))
    else
      GridInfo(900, 900, GeographicalPoint(latitude := 51.0, longitude := 9.0), CartesianPoint(450.0, 450.0))
  }

  /** RDQuadrant: a point is on the left (lower) side when its column (row) minus the
      offset is at most 0, so the offset column and row count as left and lower. */
  function QuadrantOf(offset: CartesianPoint, p: GridPoint): Quadrant {
    var isLeft := p.ix as real - offset.x <= 0.0;
    var isLower := p.iy as real - offset.y <= 0.0;
    if isLeft && isLower then LowerLeft
    else if isLeft && !isLower then UpperLeft
    else if !isLeft && !isLower then UpperRight
    else LowerRight
  }

  /** The quadrant a grid point is assigned, as the two comparisons with the offset. */
  lemma QuadrantCases(ox: int, oy: int, p: GridPoint)
    ensures QuadrantOf(CartesianPoint(ox as real, oy as real), p) == LowerLeft <==> p.ix <= ox && p.iy <= oy
    ensures QuadrantOf(CartesianPoint(ox as real, oy as real), p) == UpperLeft <==> p.ix <= ox && p.iy > oy
    ensures QuadrantOf(CartesianPoint(ox as real, oy as real), p) == UpperRight <==> p.ix > ox && p.iy > oy
    ensures QuadrantOf(CartesianPoint(ox as real, oy as real), p) == LowerRight <==> p.ix > ox && p.iy <= oy
  {
  }

  /** The quadrant as the inverse map splits the plane: the offset column and row belong to
      the right and upper sides. */
  function QuadrantOfCorrected(offset: CartesianPoint, p: GridPoint): Quadrant {
    var isLeft := p.ix as real - offset.x < 0.0;
    var isLower := p.iy as real - offset.y < 0.0;
    if isLeft && isLower then LowerLeft
    else if isLeft && !isLower then UpperLeft
    else if !isLeft && !isLower then UpperRight
    else LowerRight
  }

  /** The cartesian corner of a grid cell: origin plus the cell's distance from the offset,
      where the right and upper quadrants count one cell further. */
  function CartesianInQuadrant(origin: CartesianPoint, offset: CartesianPoint, q: Quadrant, p: GridPoint): CartesianPoint {
    var dx := if q == LowerLeft || q == UpperLeft then p.ix as real - (offset.x - 1.0) - 1.0
              else p.ix as real - (offset.x - 1.0);
    var dy := if q == LowerLeft || q == LowerRight then p.iy as real - (offset.y - 1.0) - 1.0
              else p.iy as real - (offset.y - 1.0);
    CartesianPoint(origin.x + dx * MESH_WIDTH, origin.y + dy * MESH_WIDTH)
  }

  /** RDCoordinateSystem::cartesianCoordinate of a grid point. */
  function CartesianOfGridPoint(origin: CartesianPoint, offset: CartesianPoint, p: GridPoint): CartesianPoint {
    CartesianInQuadrant(origin, offset, QuadrantOf(offset, p), p)
  }

  /** cartesianCoordinate with the corrected quadrant. */
  function CartesianOfGridPointCorrected(origin: CartesianPoint, offset: CartesianPoint, p: GridPoint): CartesianPoint {
    CartesianInQuadrant(origin, offset, QuadrantOfCorrected(offset, p), p)
  }

  function Ceil(r: real): int {
    -((-r).Floor)
  }

  /** C's (int) cast of a double: truncation toward zero. */
  function Trunc(r: real): int {
    if r >= 0.0 then r.Floor else -((-r).Floor)
  }

  /** The quadrant of a cartesian point by the signs of its distance from the origin. */
  function DistanceQuadrant(dx: real, dy: real): Quadrant {
    if dx < 0.0 && dy < 0.0 then LowerLeft
    else if dx < 0.0 && dy >= 0.0 then UpperLeft
    else if dx >= 0.0 && dy >= 0.0 then UpperRight
    else LowerRight
  }

  /** The column gridPoint computes in quadrant q: floor on the left, ceil in the upper right,
      floor in the lower right, each shifted by the offset. */
  function Column(q: Quadrant, dx: real, ox: real): int {
    match q
    case LowerLeft => Trunc(dx.Floor as real + ox)
    case UpperLeft => Trunc(dx.Floor as real + ox)
    case UpperRight => Trunc(Ceil(dx) as real + ox - 1.0)
    case LowerRight => Trunc(dx.Floor as real + ox - 1.0)
  }

  /** The row gridPoint computes in quadrant q. */
  function Row(q: Quadrant, dy: real, oy: real): int {
    match q
    case LowerLeft => Trunc(dy.Floor as real + oy)
    case UpperLeft => Trunc(Ceil(dy) as real + oy - 1.0)
    case UpperRight => Trunc(Ceil(dy) as real + oy - 1.0)
    case LowerRight => Trunc(dy.Floor as real + oy)
  }

  /** RDCoordinateSystem::gridPoint of a cartesian point: the quadrant by the signs of the
      distance from the origin, floor or ceil of the distance per quadrant, and whether the
      cell lies inside the horizontal x vertical grid. */
  function GridPointOfCartesian(origin: CartesianPoint, offset: CartesianPoint, horizontal: int, vertical: int, c: CartesianPoint): (GridPoint, bool) {
    var dx := c.x - origin.x;
    var dy := c.y - origin.y;
    var q := DistanceQuadrant(dx, dy);
    var p := GridPoint(Column(q, dx, offset.x), Row(q, dy, offset.y));
    (p, p.ix >= 0 && p.iy >= 0 && p.ix < horizontal && p.iy < vertical)
  }

  /** The column as the upper-right quadrant computes it, used below the origin too: ceil on
      the right side of the origin, so a column covers the same x-range above and below it. */
  function ColumnCorrected(q: Quadrant, dx: real, ox: real): int {
    if q == LowerRight then Column(UpperRight, dx, ox) else Column(q, dx, ox)
  }

  /** gridPoint with the corrected lower-right column. */
  function GridPointOfCartesianCorrected(origin: CartesianPoint, offset: CartesianPoint, horizontal: int, vertical: int, c: CartesianPoint): (GridPoint, bool) {
    var dx := c.x - origin.x;
    var dy := c.y - origin.y;
    var q := DistanceQuadrant(dx, dy);
    var p := GridPoint(ColumnCorrected(q, dx, offset.x), Row(q, dy, offset.y));
    (p, p.ix >= 0 && p.iy >= 0 && p.ix < horizontal && p.iy < vertical)
  }

  lemma TruncOfInt(n: int)
    ensures Trunc(n as real) == n
  {
  }

  /** At an integral distance d floor and ceil agree. */
  lemma AxisOfInt(q: Quadrant, d: int, o: int)
    ensures Column(q, d as real, o as real) == if q == LowerLeft || q == UpperLeft then d + o else d + o - 1
    ensures ColumnCorrected(q, d as real, o as real) == Column(q, d as real, o as real)
    ensures Row(q, d as real, o as real) == if q == LowerLeft || q == LowerRight then d + o else d + o - 1
  {
    assert (d as real).Floor == d;
    assert Ceil(d as real) == d;
    TruncOfInt(d + o);
    TruncOfInt(d + o - 1);
    assert d as real + o as real == (d + o) as real;
    assert d as real + o as real - 1.0 == (d + o - 1) as real;
  }

  /** Strictly between a and a + 1, floor is a and ceil is a + 1. */
  lemma AxisInUnit(q: Quadrant, a: int, d: real, o: int)
    requires a as real < d < (a + 1) as real
    ensures Column(q, d, o as real) == if q == LowerRight then a + o - 1 else a + o
    ensures ColumnCorrected(q, d, o as real) == a + o
    ensures Row(q, d, o as real) == a + o
  {
    assert d.Floor == a;
    assert Ceil(d) == a + 1;
    TruncOfInt(a + o);
    TruncOfInt(a + o - 1);
    assert a as real + o as real == (a + o) as real;
    assert (a + 1) as real + o as real - 1.0 == (a + o) as real;
    assert a as real + o as real - 1.0 == (a + o - 1) as real;
  }

  /** The integral distance of a cell's cartesian point from the origin along one axis: the
      cell's distance from the offset, one more on the right (upper) side. */
  function Distance(k: int, o: int, farSide: bool): int {
    if farSide then k - o + 1 else k - o
  }

  lemma CartesianDistances(origin: CartesianPoint, ox: int, oy: int, q: Quadrant, p: GridPoint)
    ensures var c := CartesianInQuadrant(origin, CartesianPoint(ox as real, oy as real), q, p);
      c.x - origin.x == Distance(p.ix, ox, q == UpperRight || q == LowerRight) as real &&
      c.y - origin.y == Distance(p.iy, oy, q == UpperLeft || q == UpperRight) as real
  {
  }

  /** Grid to cartesian and back returns the grid point, for every cell off the offset column
      and row. */
  lemma RoundTripOffOffset(origin: CartesianPoint, ox: int, oy: int, horizontal: int, vertical: int, p: GridPoint)
    requires p.ix != ox && p.iy != oy
    ensures var offset := CartesianPoint(ox as real, oy as real);
      GridPointOfCartesian(origin, offset, horizontal, vertical, CartesianOfGridPoint(origin, offset, p)) ==
        (p, 0 <= p.ix < horizontal && 0 <= p.iy < vertical)
  {
    var offset := CartesianPoint(ox as real, oy as real);
    var q := QuadrantOf(offset, p);
    QuadrantCases(ox, oy, p);
    CartesianDistances(origin, ox, oy, q, p);
    var dx := Distance(p.ix, ox, q == UpperRight || q == LowerRight);
    var dy := Distance(p.iy, oy, q == UpperLeft || q == UpperRight);
    assert DistanceQuadrant(dx as real, dy as real) == q;
    AxisOfInt(q, dx, ox);
    AxisOfInt(q, dy, oy);
  }

  /** On the offset column and row the round trip lands one cell to the left or below: the
      quadrant test puts them on the left/lower side, the inverse on the right/upper side. */
  lemma RoundTripOnOffset(origin: CartesianPoint, ox: int, oy: int, horizontal: int, vertical: int, p: GridPoint)
    requires p.ix == ox || p.iy == oy
    ensures var offset := CartesianPoint(ox as real, oy as real);
      GridPointOfCartesian(origin, offset, horizontal, vertical, CartesianOfGridPoint(origin, offset, p)).0 ==
        GridPoint(if p.ix == ox then ox - 1 else p.ix, if p.iy == oy then oy - 1 else p.iy)
  {
    var offset := CartesianPoint(ox as real, oy as real);
    var q := QuadrantOf(offset, p);
    QuadrantCases(ox, oy, p);
    CartesianDistances(origin, ox, oy, q, p);
    var dx := Distance(p.ix, ox, q == UpperRight || q == LowerRight);
    var dy := Distance(p.iy, oy, q == UpperLeft || q == UpperRight);
    var q' := DistanceQuadrant(dx as real, dy as real);
    AxisOfInt(q', dx, ox);
    AxisOfInt(q', dy, oy);
  }

  /** With the corrected quadrant every grid point survives the round trip, through gridPoint
      as written and through the corrected one (they agree at integral distances). */
  lemma RoundTripCorrected(origin: CartesianPoint, ox: int, oy: int, horizontal: int, vertical: int, p: GridPoint)
    ensures var offset := CartesianPoint(ox as real, oy as real);
      GridPointOfCartesian(origin, offset, horizontal, vertical, CartesianOfGridPointCorrected(origin, offset, p)) ==
        (p, 0 <= p.ix < horizontal && 0 <= p.iy < vertical)
    ensures var offset := CartesianPoint(ox as real, oy as real);
      GridPointOfCartesianCorrected(origin, offset, horizontal, vertical, CartesianOfGridPointCorrected(origin, offset, p)) ==
        (p, 0 <= p.ix < horizontal && 0 <= p.iy < vertical)
  {
    var offset := CartesianPoint(ox as real, oy as real);
    var q := QuadrantOfCorrected(offset, p);
    CartesianDistances(origin, ox, oy, q, p);
    var dx := Distance(p.ix, ox, q == UpperRight || q == LowerRight);
    var dy := Distance(p.iy, oy, q == UpperLeft || q == UpperRight);
    assert DistanceQuadrant(dx as real, dy as real) == q;
    AxisOfInt(q, dx, ox);
    AxisOfInt(q, dy, oy);
  }

  /** The corrected quadrant differs from the source's only on the offset column and row. */
  lemma CorrectionOnlyOnOffset(ox: int, oy: int, p: GridPoint)
    requires p.ix != ox && p.iy != oy
    ensures QuadrantOfCorrected(CartesianPoint(ox as real, oy as real), p) == QuadrantOf(CartesianPoint(ox as real, oy as real), p)
  {
  }

  /** The four corners of a cell's polygon around its cartesian point pc, per quadrant. */
  function PolygonCorners(q: Quadrant, pc: CartesianPoint): (cs: seq<CartesianPoint>)
    ensures |cs| == 4 && pc in cs
    ensures forall k :: 0 <= k < 4 ==>
      && SquareCorner(cs).x <= cs[k].x <= SquareCorner(cs).x + 1.0
      && SquareCorner(cs).y <= cs[k].y <= SquareCorner(cs).y + 1.0
    ensures SquareCorner(cs) == CartesianPoint(if q == LowerLeft || q == UpperLeft then pc.x else pc.x - 1.0,
                                               if q == LowerLeft then pc.y else pc.y - 1.0)
  {
    match q
    case LowerLeft =>
      [pc, CartesianPoint(pc.x, pc.y + 1.0), CartesianPoint(pc.x + 1.0, pc.y + 1.0), CartesianPoint(pc.x + 1.0, pc.y)]
    case UpperLeft =>
      [CartesianPoint(pc.x, pc.y - 1.0), pc, CartesianPoint(pc.x + 1.0, pc.y), CartesianPoint(pc.x + 1.0, pc.y - 1.0)]
    case UpperRight =>
      [CartesianPoint(pc.x - 1.0, pc.y - 1.0), CartesianPoint(pc.x - 1.0, pc.y), pc, CartesianPoint(pc.x, pc.y - 1.0)]
    case LowerRight =>
      [CartesianPoint(pc.x - 1.0, pc.y), CartesianPoint(pc.x - 1.0, pc.y - 1.0), CartesianPoint(pc.x, pc.y - 1.0), pc]
  }

  /** The polygon as the cell geometry needs it: in the lower-right quadrant the cell's
      cartesian point is its lower-right corner, so the cell extends left and up from it. */
  function PolygonCornersCorrected(q: Quadrant, pc: CartesianPoint): (cs: seq<CartesianPoint>)
    ensures |cs| == 4 && pc in cs
    ensures forall k :: 0 <= k < 4 ==>
      && SquareCorner(cs).x <= cs[k].x <= SquareCorner(cs).x + 1.0
      && SquareCorner(cs).y <= cs[k].y <= SquareCorner(cs).y + 1.0
    ensures q == LowerRight ==> SquareCorner(cs) == CartesianPoint(pc.x - 1.0, pc.y)
    ensures q != LowerRight ==> cs == PolygonCorners(q, pc)
  {
    if q == LowerRight then
      [CartesianPoint(pc.x - 1.0, pc.y), CartesianPoint(pc.x - 1.0, pc.y + 1.0), CartesianPoint(pc.x, pc.y + 1.0), pc]
    else PolygonCorners(q, pc)
  }

  /** The open unit square with lower-left corner (x0, y0). */
  predicate InUnitSquare(x0: real, y0: real, c: CartesianPoint) {
    x0 < c.x < x0 + 1.0 && y0 < c.y < y0 + 1.0
  }

  /** Every polygon is a unit square, given by its lower-left corner. */
  function SquareCorner(cs: seq<CartesianPoint>): CartesianPoint
    requires |cs| == 4
  {
    CartesianPoint(Min4(cs[0].x, cs[1].x, cs[2].x, cs[3].x), Min4(cs[0].y, cs[1].y, cs[2].y, cs[3].y))
  }

  function Min4(a: real, b: real, c: real, d: real): real {
    var ab := if a <= b then a else b;
    var cd := if c <= d then c else d;
    if ab <= cd then ab else cd
  }

  /** The corrected polygon of every cell is the unit square [ix - ox, ix - ox + 1] x
      [iy - oy, iy - oy + 1] kilometres from the origin: a column's x-range and a row's
      y-range are the same in every quadrant, so the polygons tile the plane. */
  lemma CorrectedPolygonIsCell(origin: CartesianPoint, ox: int, oy: int, p: GridPoint)
    ensures var offset := CartesianPoint(ox as real, oy as real);
      SquareCorner(PolygonCornersCorrected(QuadrantOfCorrected(offset, p), CartesianOfGridPointCorrected(origin, offset, p))) ==
        CartesianPoint(origin.x + (p.ix - ox) as real, origin.y + (p.iy - oy) as real)
  {
    var offset := CartesianPoint(ox as real, oy as real);
    CartesianDistances(origin, ox, oy, QuadrantOfCorrected(offset, p), p);
  }

  /** Across the offset row the corrected polygons of a column stack: cell (ix, oy) has the
      x-range of cell (ix, oy - 1) and starts where that one ends. */
  lemma OffsetRowNeighboursStack(origin: CartesianPoint, ox: int, oy: int, ix: int)
    ensures var offset := CartesianPoint(ox as real, oy as real);
      var above := GridPoint(ix, oy);
      var below := GridPoint(ix, oy - 1);
      var a := SquareCorner(PolygonCornersCorrected(QuadrantOfCorrected(offset, above), CartesianOfGridPointCorrected(origin, offset, above)));
      var b := SquareCorner(PolygonCornersCorrected(QuadrantOfCorrected(offset, below), CartesianOfGridPointCorrected(origin, offset, below)));
      a.x == b.x && a.y == b.y + 1.0
  {
    CorrectedPolygonIsCell(origin, ox, oy, GridPoint(ix, oy));
    CorrectedPolygonIsCell(origin, ox, oy, GridPoint(ix, oy - 1));
  }

  /** Every point strictly inside a cell's corrected polygon maps back to that cell through
      the corrected gridPoint; so no two corrected polygons overlap. */
  lemma PolygonInteriorMapsToCell(origin: CartesianPoint, ox: int, oy: int, horizontal: int, vertical: int, p: GridPoint, c: CartesianPoint)
    requires var offset := CartesianPoint(ox as real, oy as real);
      var corner := SquareCorner(PolygonCornersCorrected(QuadrantOfCorrected(offset, p), CartesianOfGridPointCorrected(origin, offset, p)));
      InUnitSquare(corner.x, corner.y, c)
    ensures GridPointOfCartesianCorrected(origin, CartesianPoint(ox as real, oy as real), horizontal, vertical, c).0 == p
  {
    CorrectedPolygonIsCell(origin, ox, oy, p);
    var dx := c.x - origin.x;
    var dy := c.y - origin.y;
    var q := DistanceQuadrant(dx, dy);
    AxisInUnit(q, p.ix - ox, dx, ox);
    AxisInUnit(q, p.iy - oy, dy, oy);
  }

  /** Every point lies in the closed corrected polygon of the cell the corrected gridPoint
      assigns it; so the corrected polygons cover the plane. */
  lemma CorrectedPolygonsCover(origin: CartesianPoint, ox: int, oy: int, horizontal: int, vertical: int, c: CartesianPoint)
    ensures var offset := CartesianPoint(ox as real, oy as real);
      var p := GridPointOfCartesianCorrected(origin, offset, horizontal, vertical, c).0;
      var corner := SquareCorner(PolygonCornersCorrected(QuadrantOfCorrected(offset, p), CartesianOfGridPointCorrected(origin, offset, p)));
      corner.x <= c.x <= corner.x + 1.0 && corner.y <= c.y <= corner.y + 1.0
  {
    var offset := CartesianPoint(ox as real, oy as real);
    var p := GridPointOfCartesianCorrected(origin, offset, horizontal, vertical, c).0;
    CorrectedPolygonIsCell(origin, ox, oy, p);
    var q := DistanceQuadrant(c.x - origin.x, c.y - origin.y);
    ColumnCovers(q, c.x - origin.x, ox);
    RowCovers(q, c.y - origin.y, oy);
  }

  /** The corrected column of a distance d on d's side of the origin: d lies within the
      column's closed unit interval. */
  lemma ColumnCovers(q: Quadrant, d: real, o: int)
    requires (q == LowerLeft || q == UpperLeft) <==> d < 0.0
    ensures (ColumnCorrected(q, d, o as real) - o) as real <= d <= (ColumnCorrected(q, d, o as real) - o + 1) as real
  {
    TruncOfInt(d.Floor + o);
    TruncOfInt(Ceil(d) + o - 1);
    assert d.Floor as real + o as real == (d.Floor + o) as real;
    assert Ceil(d) as real + o as real - 1.0 == (Ceil(d) + o - 1) as real;
  }

  /** The row of a distance d on d's side of the origin: d lies within the row's closed
      unit interval. */
  lemma RowCovers(q: Quadrant, d: real, o: int)
    requires (q == LowerLeft || q == LowerRight) <==> d < 0.0
    ensures (Row(q, d, o as real) - o) as real <= d <= (Row(q, d, o as real) - o + 1) as real
  {
    TruncOfInt(d.Floor + o);
    TruncOfInt(Ceil(d) + o - 1);
    assert d.Floor as real + o as real == (d.Floor + o) as real;
    assert Ceil(d) as real + o as real - 1.0 == (Ceil(d) + o - 1) as real;
  }

  /** The corrected gridPoint gives points with the same x the same column, whatever their y. */
  lemma CorrectedColumnIgnoresRow(origin: CartesianPoint, offset: CartesianPoint, horizontal: int, vertical: int, c: CartesianPoint, c': CartesianPoint)
    requires c.x == c'.x
    ensures GridPointOfCartesianCorrected(origin, offset, horizontal, vertical, c).0.ix ==
            GridPointOfCartesianCorrected(origin, offset, horizontal, vertical, c').0.ix
  {
  }

  /** As written, gridPoint's lower-right column is one less than the upper-right one: below
      the origin the points half a kilometre left and right of it both land in column ox - 1,
      while above it the point half a kilometre right lands in column ox. */
  lemma LowerRightColumnShifted(origin: CartesianPoint, ox: int, oy: int, horizontal: int, vertical: int)
    ensures var offset := CartesianPoint(ox as real, oy as real);
      && GridPointOfCartesian(origin, offset, horizontal, vertical, CartesianPoint(origin.x - 0.5, origin.y - 0.5)).0 == GridPoint(ox - 1, oy - 1)
      && GridPointOfCartesian(origin, offset, horizontal, vertical, CartesianPoint(origin.x + 0.5, origin.y - 0.5)).0 == GridPoint(ox - 1, oy - 1)
      && GridPointOfCartesian(origin, offset, horizontal, vertical, CartesianPoint(origin.x + 0.5, origin.y + 0.5)).0 == GridPoint(ox, oy)
      && GridPointOfCartesianCorrected(origin, offset, horizontal, vertical, CartesianPoint(origin.x + 0.5, origin.y - 0.5)).0 == GridPoint(ox, oy - 1)
  {
    AxisInUnit(LowerLeft, -1, -0.5, ox);
    AxisInUnit(LowerLeft, -1, -0.5, oy);
    AxisInUnit(LowerRight, 0, 0.5, ox);
    AxisInUnit(LowerRight, -1, -0.5, oy);
    AxisInUnit(UpperRight, 0, 0.5, ox);
    AxisInUnit(UpperRight, 0, 0.5, oy);
  }

  /** As written, the lower-right polygon lies one row below its cell: the centre of the
      polygon of cell (ox+1, oy-1) maps to cell (ox+1, oy-2) through the corrected gridPoint
      (and to (ox, oy-2) through gridPoint as written, which also shifts the column). */
  lemma LowerRightPolygonShifted(origin: CartesianPoint, ox: int, oy: int, horizontal: int, vertical: int)
    ensures var offset := CartesianPoint(ox as real, oy as real);
      var p := GridPoint(ox + 1, oy - 1);
      var corner := SquareCorner(PolygonCorners(QuadrantOf(offset, p), CartesianOfGridPoint(origin, offset, p)));
      var centre := CartesianPoint(corner.x + 0.5, corner.y + 0.5);
      QuadrantOf(offset, p) == LowerRight &&
      GridPointOfCartesianCorrected(origin, offset, horizontal, vertical, centre).0 == GridPoint(ox + 1, oy - 2) &&
      GridPointOfCartesian(origin, offset, horizontal, vertical, centre).0 == GridPoint(ox, oy - 2)
  {
    var offset := CartesianPoint(ox as real, oy as real);
    var p := GridPoint(ox + 1, oy - 1);
    var pc := CartesianOfGridPoint(origin, offset, p);
    assert pc == CartesianPoint(origin.x + 2.0, origin.y - 1.0);
    var corner := SquareCorner(PolygonCorners(LowerRight, pc));
    assert corner == CartesianPoint(origin.x + 1.0, origin.y - 2.0);
    AxisInUnit(LowerRight, 1, 1.5, ox);
    AxisInUnit(LowerRight, -2, -1.5, oy);
  }

  /** A product's coordinate system: its grid layout and the projection between geographical
      and cartesian coordinates. The projection's trigonometry is given as the two functions
      forward (geographical radians to cartesian) and inverse. */
  class CoordinateSystem {
    var scanType: ScanType
    var gridCountHorizontal: int
    var gridCountVertical: int
    var originGeographical: GeographicalPoint
    var originCartesian: CartesianPoint
    var offset: CartesianPoint
    const forward: GeographicalPointRad -> CartesianPoint
    const inverse: CartesianPoint -> GeographicalPointRad

    /** The grid fields are those of the current scan type, and the cartesian origin is the
        projected geographical one. */
    predicate Valid()
      reads this
    {
      var g := GridInfoOf(scanType);
      gridCountHorizontal == g.horizontal && gridCountVertical == g.vertical &&
      originGeographical == g.originGeographical && offset == g.offset &&
      originCartesian == forward(ToRad(originGeographical))
    }

    constructor(t: ScanType, forward: GeographicalPointRad -> CartesianPoint, inverse: CartesianPoint -> GeographicalPointRad)
      ensures scanType == t && Valid()
      ensures this.forward == forward && this.inverse == inverse
    {
      this.forward := forward;
      this.inverse := inverse;
      scanType := t;
      new;
      UpdateGridInfo();
    }

    /** setScanType: a new type recomputes the grid; the same type changes nothing. */
    method SetScanType(t: ScanType)
      requires Valid()
      modifies this
      ensures scanType == t && Valid()
      ensures old(scanType) == t ==> unchanged(this)
    {
      if scanType == t {
        return;
      }
      scanType := t;
      UpdateGridInfo();
    }

    /** updateGridInfo. */
    method UpdateGridInfo()
      modifies this
      ensures scanType == old(scanType) && Valid()
    {
      var g := GridInfoOf(scanType);
      gridCountHorizontal := g.horizontal;
      gridCountVertical := g.vertical;
      originGeographical := g.originGeographical;
      offset := g.offset;
      originCartesian := CartesianOfGeographical(originGeographical);
    }

    function CartesianOfGeographicalRad(g: GeographicalPointRad): CartesianPoint {
      forward(g)
    }

    function CartesianOfGeographical(g: GeographicalPoint): CartesianPoint {
      forward(ToRad(g))
    }

    function GeographicalRadOfCartesian(c: CartesianPoint): GeographicalPointRad {
      inverse(c)
    }

    function GeographicalOfCartesian(c: CartesianPoint): GeographicalPoint {
      ToDeg(inverse(c))
    }

    function Quadrant(p: GridPoint): Quadrant
      reads this
    {
      QuadrantOf(offset, p)
    }

    /** cartesianCoordinate of a grid point; back through GridPoint it returns the point
        itself for every cell off the offset column and row. */
    function CartesianOfGrid(p: GridPoint): (c: CartesianPoint)
      reads this
      ensures Valid() && p.ix as real != offset.x && p.iy as real != offset.y ==> GridPointAt(c).0 == p
    {
      if Valid() then
        var ox, oy := offset.x.Floor, offset.y.Floor;
        assert offset == CartesianPoint(ox as real, oy as real);
        if p.ix != ox && p.iy != oy then
          RoundTripOffOffset(originCartesian, ox, oy, gridCountHorizontal, gridCountVertical, p);
          CartesianOfGridPoint(originCartesian, offset, p)
        else CartesianOfGridPoint(originCartesian, offset, p)
      else CartesianOfGridPoint(originCartesian, offset, p)
    }

    function GeographicalRadOfGrid(p: GridPoint): GeographicalPointRad
      reads this
    {
      inverse(CartesianOfGrid(p))
    }

    function GeographicalOfGrid(p: GridPoint): GeographicalPoint
      reads this
    {
      ToDeg(inverse(CartesianOfGrid(p)))
    }

    /** gridPoint of a cartesian point, with the isInside flag: true exactly when the cell
        lies within the grid. */
    function GridPointAt(c: CartesianPoint): (r: (GridPoint, bool))
      reads this
      ensures r.1 <==> 0 <= r.0.ix < gridCountHorizontal && 0 <= r.0.iy < gridCountVertical
    {
      GridPointOfCartesian(originCartesian, offset, gridCountHorizontal, gridCountVertical, c)
    }

    function GridPointAtGeographical(g: GeographicalPoint): (GridPoint, bool)
      reads this
    {
      GridPointAt(CartesianOfGeographical(g))
    }

    function GridPointAtGeographicalRad(g: GeographicalPointRad): (GridPoint, bool)
      reads this
    {
      GridPointAt(CartesianOfGeographicalRad(g))
    }

    /** The polygon of a cell in degrees: each corner projected back. */
    function Polygon(p: GridPoint): (poly: seq<GeographicalPoint>)
      reads this
      ensures |poly| == 4
    {
      var corners := PolygonCorners(Quadrant(p), CartesianOfGrid(p));
      seq(4, k requires 0 <= k < 4 => GeographicalOfCartesian(corners[k]))
    }

    /** geographicalPolygonForGridpoint: a fresh array of four corners, or null and a count
        of 0 when the allocation (allocOk) fails. */
    method GeographicalPolygon(p: GridPoint, allocOk: bool) returns (poly: array?<GeographicalPoint>, count: int)
      ensures !allocOk ==> poly == null && count == 0
      ensures allocOk ==> poly != null && fresh(poly) && count == 4 && poly[..] == Polygon(p)
    {
      count := 4;
      if !allocOk {
        return null, 0;
      }
      var corners := Polygon(p);
      poly := new GeographicalPoint[4](k requires 0 <= k < 4 => corners[k]);
    }
  }

  /** The fixtures of the library's coordinate test for a 900 x 900 product: the corners (0, 0)
      and (899, 899) survive the round trip and lie inside; the projected origin maps to the
      anchor cell (449, 449), whereas cell (449, 449) itself maps one cell left of and below
      the origin, and cell (450, 450) maps onto it. */
  lemma TestFixtures(origin: CartesianPoint)
    ensures var g := GridInfoOf(RX);
      GridPointOfCartesian(origin, g.offset, g.horizontal, g.vertical, CartesianOfGridPoint(origin, g.offset, GridPoint(0, 0))) == (GridPoint(0, 0), true) &&
      GridPointOfCartesian(origin, g.offset, g.horizontal, g.vertical, CartesianOfGridPoint(origin, g.offset, GridPoint(899, 899))) == (GridPoint(899, 899), true) &&
      GridPointOfCartesian(origin, g.offset, g.horizontal, g.vertical, origin) == (GridPoint(449, 449), true) &&
      CartesianOfGridPoint(origin, g.offset, GridPoint(449, 449)) == CartesianPoint(origin.x - 1.0, origin.y - 1.0) &&
      CartesianOfGridPointCorrected(origin, g.offset, GridPoint(449, 449)) == CartesianPoint(origin.x - 1.0, origin.y - 1.0) &&
      CartesianOfGridPoint(origin, g.offset, GridPoint(450, 450)) == origin
  {
    RoundTripOffOffset(origin, 450, 450, 900, 900, GridPoint(0, 0));
    RoundTripOffOffset(origin, 450, 450, 900, 900, GridPoint(899, 899));
  }

  /** A cell's cartesian point is its corner farthest from the origin, so with the corrected
      quadrant no cell's cartesian point is the origin itself. */
  lemma NoCellAtOrigin(origin: CartesianPoint, ox: int, oy: int, p: GridPoint)
    ensures CartesianOfGridPointCorrected(origin, CartesianPoint(ox as real, oy as real), p) != origin
  {
    var offset := CartesianPoint(ox as real, oy as real);
    var q := QuadrantOfCorrected(offset, p);
    CartesianDistances(origin, ox, oy, q, p);
    assert Distance(p.ix, ox, q == UpperRight || q == LowerRight) != 0;
  }

  /** The anchor cell (ox - 1, oy - 1), which the origin maps to, has the origin as the
      upper-right corner of its corrected polygon; its cartesian point is the opposite corner. */
  lemma AnchorCellTouchesOrigin(origin: CartesianPoint, ox: int, oy: int, horizontal: int, vertical: int)
    ensures var offset := CartesianPoint(ox as real, oy as real);
      var a := GridPoint(ox - 1, oy - 1);
      var cs := PolygonCornersCorrected(QuadrantOfCorrected(offset, a), CartesianOfGridPointCorrected(origin, offset, a));
      && origin in cs
      && SquareCorner(cs) == CartesianPoint(origin.x - 1.0, origin.y - 1.0)
      && GridPointOfCartesian(origin, offset, horizontal, vertical, origin).0 == a
      && GridPointOfCartesianCorrected(origin, offset, horizontal, vertical, origin).0 == a
  {
    var offset := CartesianPoint(ox as real, oy as real);
    var a := GridPoint(ox - 1, oy - 1);
    CorrectedPolygonIsCell(origin, ox, oy, a);
    assert CartesianOfGridPointCorrected(origin, offset, a) == CartesianPoint(origin.x - 1.0, origin.y - 1.0);
    AxisOfInt(UpperRight, 0, ox);
    AxisOfInt(UpperRight, 0, oy);
  }
}
